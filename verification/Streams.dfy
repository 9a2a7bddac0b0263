/** What makes an event part of a request stream, stated on the events' own fields: the joined signatures that
    the detectors compare, the two token lookups, and the loop walk. */
module Streams {
  import opened Text
  import opened Sorting
  import opened Events
  import H = TruncatedHistory
  import I = IngestDetection
  import L = LoopSuspect
  import T = TokenExplosion

  // ---- fields and their defaults ----

  /** A stripped text; a missing or empty one reads as the default. */
  function Trimmed(value: Option<string>, missing: string): string {
    Strip(if value.Some? && value.value != "" then value.value else missing)
  }

  /** As above, and a blank one reads as the default too. */
  function TrimmedOr(value: Option<string>, missing: string, blank: string): string {
    if Trimmed(value, missing) == "" then blank else Trimmed(value, missing)
  }

  function ModelOf(value: Option<string>): string { TrimmedOr(value, "", "na") }
  function EndpointOf(value: Option<string>): string { Trimmed(value, "na") }
  function FeatureOf(value: Option<string>): string { TrimmedOr(value, "unknown", "unknown") }
  function FingerprintOf(value: Option<string>): string { TrimmedOr(value, "unknown", "unknown") }

  /** The environment is not stripped. */
  function EnvironmentOf(value: Option<string>): string {
    if value.Some? && value.value != "" then value.value else "na"
  }

  // ---- joining with colons ----

  /** The text a and a colon begin the text b. */
  predicate Nested(a: string, b: string) {
    a + ":" <= b
  }

  /** Of two equal joined texts, the shorter first part is nested in the longer one. */
  lemma EqualJoinsNest(a: string, x: string, b: string, y: string)
    requires a + ":" + x == b + ":" + y && |a| < |b|
    ensures Nested(a, b) && x == b[|a| + 1..] + ":" + y
  {
    var u, v := a + ":" + x, b + ":" + y;
    assert u[..|a| + 1] == a + ":" && u[|a| + 1..] == x;
    assert v[..|a| + 1] == b[..|a| + 1] && v[|a| + 1..] == b[|a| + 1..] + ":" + y;
  }

  lemma EqualJoinsAgree(a: string, x: string, b: string, y: string)
    requires a + ":" + x == b + ":" + y && |a| == |b|
    ensures a == b && x == y
  {
    var u, v := a + ":" + x, b + ":" + y;
    assert u[..|a|] == a && v[..|b|] == b;
    assert u[|a| + 1..] == x && v[|b| + 1..] == y;
  }

  /** Texts joined by a colon are equal part by part when neither first part is nested in the other. */
  lemma ColonSplit(a: string, b: string, x: string, y: string)
    requires !Nested(a, b) && !Nested(b, a)
    ensures a + ":" + x == b + ":" + y <==> a == b && x == y
  {
    if a + ":" + x == b + ":" + y {
      if |a| < |b| {
        EqualJoinsNest(a, x, b, y);
      } else if |b| < |a| {
        EqualJoinsNest(b, y, a, x);
      } else {
        EqualJoinsAgree(a, x, b, y);
      }
    }
  }

  lemma Cancel(before: string, x: string, y: string, after: string)
    ensures before + x + after == before + y + after <==> x == y
  {
    var a, b := before + x + after, before + y + after;
    if a == b {
      assert |x| == |y|;
      assert a[|before|..|before| + |x|] == x && b[|before|..|before| + |y|] == y;
    }
  }

  // ---- the token-explosion stream ----

  predicate IsCurrent(e: Event, ctx: DetectionContext) {
    ctx.currentEvent.Some? && e.id == ctx.currentEvent.value.id
  }

  predicate SameProviderAndModel(e: Event, ctx: DetectionContext) {
    e.provider == ctx.provider && Trimmed(e.requestedModel, "") == Trimmed(ctx.requestedModel, "")
  }

  /** Agrees with the context in provider, model, endpoint and feature, and is not the current event. */
  predicate Inside(e: Event, ctx: DetectionContext) {
    && SameProviderAndModel(e, ctx) && !IsCurrent(e, ctx)
    && EndpointOf(e.endpoint) == EndpointOf(ctx.endpoint) && FeatureOf(e.feature) == FeatureOf(ctx.feature)
  }

  /** Feature texts can make up for the difference between the endpoints a and b: they hold no leading blank. */
  predicate Confusable(a: string, b: string) {
    Nested(a, b) && (|b| > |a| + 1 ==> !IsSpace(b[|a| + 1]))
  }

  predicate Apart(a: string, b: string) {
    !Confusable(a, b) && !Confusable(b, a)
  }

  predicate Separable(e: Event, ctx: DetectionContext) {
    FeatureOf(e.feature) == FeatureOf(ctx.feature) || Apart(EndpointOf(e.endpoint), EndpointOf(ctx.endpoint))
  }

  lemma FeatureHasNoMargin(feature: Option<string>)
    ensures var f := FeatureOf(feature); f != "" && !IsSpace(f[0]) && !IsSpace(f[|f| - 1])
  {
    assert Strip("unknown") == "unknown" by {
      NoMarginNoStrip("unknown");
    }
    var _, _ := StripIsTrim(if feature.Some? && feature.value != "" then feature.value else "unknown");
  }

  lemma EqualSignaturesNest(x: Option<string>, f: Option<string>, y: Option<string>, g: Option<string>)
    requires T.RequestSignature(x, f) == T.RequestSignature(y, g)
    ensures |EndpointOf(x)| < |EndpointOf(y)| ==> Confusable(EndpointOf(x), EndpointOf(y))
    ensures |EndpointOf(x)| == |EndpointOf(y)| ==> EndpointOf(x) == EndpointOf(y) && FeatureOf(f) == FeatureOf(g)
  {
    var a, b, c, d := EndpointOf(x), EndpointOf(y), FeatureOf(f), FeatureOf(g);
    SignatureIsJoined(x, f);
    SignatureIsJoined(y, g);
    if |a| < |b| {
      EqualJoinsNest(a, c, b, d);
      FeatureHasNoMargin(f);
      assert |b| > |a| + 1 ==> c[0] == b[|a| + 1];
    } else if |a| == |b| {
      EqualJoinsAgree(a, c, b, d);
    }
  }

  lemma SignatureIsJoined(x: Option<string>, f: Option<string>)
    ensures T.RequestSignature(x, f) == EndpointOf(x) + ":" + FeatureOf(f)
  {
  }

  /** Membership in the stream is agreement in the fields. */
  lemma StreamIsByFields(e: Event, ctx: DetectionContext)
    requires Separable(e, ctx)
    ensures T.InStream(e, T.StreamOf(ctx)) <==> Inside(e, ctx)
  {
    SignatureIsByFields(e.endpoint, e.feature, ctx.endpoint, ctx.feature);
  }

  lemma SignatureIsByFields(x: Option<string>, f: Option<string>, y: Option<string>, g: Option<string>)
    requires FeatureOf(f) == FeatureOf(g) || Apart(EndpointOf(x), EndpointOf(y))
    ensures T.RequestSignature(x, f) == T.RequestSignature(y, g)
            <==> EndpointOf(x) == EndpointOf(y) && FeatureOf(f) == FeatureOf(g)
  {
    SignatureIsJoined(x, f);
    SignatureIsJoined(y, g);
    if T.RequestSignature(x, f) == T.RequestSignature(y, g) {
      EqualSignaturesNest(x, f, y, g);
      EqualSignaturesNest(y, g, x, f);
      if FeatureOf(f) == FeatureOf(g) {
        assert |EndpointOf(x)| == |EndpointOf(y)|;
      }
    }
  }

  ghost predicate FieldsDecide(x: Option<string>, y: Option<string>) {
    forall f, g ::
      T.RequestSignature(x, f) == T.RequestSignature(y, g)
      ==> EndpointOf(x) == EndpointOf(y) && FeatureOf(f) == FeatureOf(g)
  }

  lemma ApartDecide(x: Option<string>, y: Option<string>)
    requires Apart(EndpointOf(x), EndpointOf(y))
    ensures FieldsDecide(x, y)
  {
    forall f, g | T.RequestSignature(x, f) == T.RequestSignature(y, g)
      ensures EndpointOf(x) == EndpointOf(y) && FeatureOf(f) == FeatureOf(g)
    {
      SignatureIsByFields(x, f, y, g);
    }
  }

  lemma ConfusableCollide(x: Option<string>, y: Option<string>) returns (f: Option<string>, g: Option<string>)
    requires Confusable(EndpointOf(x), EndpointOf(y))
    ensures T.RequestSignature(x, f) == T.RequestSignature(y, g) && EndpointOf(x) != EndpointOf(y)
  {
    var a, b := EndpointOf(x), EndpointOf(y);
    var rest := b[|a| + 1..];
    f, g := Some(rest + ":f"), Some("f");
    NoMarginNoStrip(rest + ":f");
    NoMarginNoStrip("f");
    assert b == a + ":" + rest;
    assert a + ":" + (rest + ":f") == b + ":" + "f";
  }

  lemma CollisionDecides(x: Option<string>, f: Option<string>, y: Option<string>, g: Option<string>)
    requires T.RequestSignature(x, f) == T.RequestSignature(y, g) && EndpointOf(x) != EndpointOf(y)
    ensures !FieldsDecide(x, y)
  {
  }

  /** The condition on the endpoints is exact: any other pair shares a signature for some two features. */
  lemma FieldsDecideIff(x: Option<string>, y: Option<string>)
    ensures FieldsDecide(x, y) <==> Apart(EndpointOf(x), EndpointOf(y))
  {
    if Apart(EndpointOf(x), EndpointOf(y)) {
      ApartDecide(x, y);
    } else if Confusable(EndpointOf(x), EndpointOf(y)) {
      var f, g := ConfusableCollide(x, y);
      CollisionDecides(x, f, y, g);
    } else {
      var g, f := ConfusableCollide(y, x);
      CollisionDecides(x, f, y, g);
    }
  }

  /** An event outside the stream, wherever it stands in the list, changes neither lookup. */
  lemma OutsiderIsInvisible(ctx: DetectionContext, a: seq<Event>, e: Event, b: seq<Event>, current: int, count: int)
    requires Separable(e, ctx) && !Inside(e, ctx)
    ensures T.PreviousTokens(a + [e] + b, T.StreamOf(ctx)) == T.PreviousTokens(a + b, T.StreamOf(ctx))
    ensures T.TokenSequence(a + [e] + b, T.StreamOf(ctx), current, count)
            == T.TokenSequence(a + b, T.StreamOf(ctx), current, count)
  {
    StreamIsByFields(e, ctx);
    MatchingAround(a, e, b, T.StreamOf(ctx));
    var x, y := T.Matching(a, T.StreamOf(ctx)), T.Matching(b, T.StreamOf(ctx));
    assert x + [] + y == x + y;
  }

  lemma MatchingAround(a: seq<Event>, e: Event, b: seq<Event>, stream: T.Stream)
    ensures T.Matching(a + b, stream) == T.Matching(a, stream) + T.Matching(b, stream)
    ensures T.Matching(a + [e] + b, stream)
            == T.Matching(a, stream) + (if T.InStream(e, stream) then [e] else []) + T.Matching(b, stream)
  {
    var p := T.Matcher(stream);
    FilterAppend(a, b, p);
    FilterAppend(a + [e], b, p);
    FilterAppend(a, [e], p);
    assert [e][1..] == [] && Filter([e], p) == if p(e) then [e] else [];
  }

  /** Nor does it change the growth verdict. */
  lemma OutsiderKeepsGrowth(ctx: DetectionContext, a: seq<Event>, e: Event, b: seq<Event>)
    requires Separable(e, ctx) && !Inside(e, ctx)
    ensures T.GrowthHit(ctx.(recentEvents := a + [e] + b)) <==> T.GrowthHit(ctx.(recentEvents := a + b))
  {
    if T.CurrentTokens(ctx).Some? {
      OutsiderIsInvisible(ctx, a, e, b, T.CurrentTokens(ctx).value, ctx.config.growthCount);
    }
    GrowthReadsSequence(ctx, a + [e] + b, a + b);
  }

  lemma GrowthReadsSequence(ctx: DetectionContext, p: seq<Event>, q: seq<Event>)
    requires var current, stream := T.CurrentTokens(ctx), T.StreamOf(ctx);
             current.Some? ==>
               T.TokenSequence(p, stream, current.value, ctx.config.growthCount)
               == T.TokenSequence(q, stream, current.value, ctx.config.growthCount)
    ensures T.GrowthHit(ctx.(recentEvents := p)) <==> T.GrowthHit(ctx.(recentEvents := q))
  {
    var with, without := ctx.(recentEvents := p), ctx.(recentEvents := q);
    assert T.StreamOf(with) == T.StreamOf(ctx) == T.StreamOf(without);
    assert T.CurrentTokens(with) == T.CurrentTokens(without);
  }

  /** The tokens an event stands for. */
  function Weight(e: Event): int {
    Max(if e.explosionTokens.Some? then e.explosionTokens.value else e.totalTokens, 0)
  }

  lemma FirstLeastIsLeast(s: seq<Event>)
    requires s != []
    ensures FirstLeast(s, NewestTs) in s && forall x :: x in s ==> x.ts <= FirstLeast(s, NewestTs).ts
  {
    if |s| == 1 {
    } else {
      FirstLeastIsLeast(s[1..]);
      assert s == [s[0]] + s[1..];
    }
  }

  lemma {:induction false} InsertAtEnd(x: Event, s: seq<Event>, last: Event)
    requires x.ts < last.ts
    ensures Insert(x, s + [last], OldestTs) == Insert(x, s, OldestTs) + [last]
  {
    if s == [] {
      assert [last][1..] == [] && [x] + [] + [last] == [x] + [last];
    } else {
      assert (s + [last])[0] == s[0] && (s + [last])[1..] == s[1..] + [last];
      InsertAtEnd(x, s[1..], last);
    }
  }

  lemma {:induction false} InsertNewest(e: Event, s: seq<Event>)
    requires forall x :: x in s ==> x.ts < e.ts
    ensures Insert(e, s, OldestTs) == s + [e]
  {
    if s == [] {
    } else {
      assert s[0] in s;
      InsertNewest(e, s[1..]);
    }
  }

  lemma {:induction false} NewestSortsLast(a: seq<Event>, e: Event, b: seq<Event>)
    requires forall x :: x in a + b ==> x.ts < e.ts
    ensures SortBy(a + [e] + b, OldestTs) == SortBy(a + b, OldestTs) + [e]
  {
    if a == [] {
      assert a + [e] + b == [e] + b && ([e] + b)[1..] == b && a + b == b;
      SortKeepsMembers(b, OldestTs);
      InsertNewest(e, SortBy(b, OldestTs));
    } else {
      var rest := a[1..];
      assert (a + [e] + b)[1..] == rest + [e] + b && (a + b)[1..] == rest + b;
      assert a[0] in a + b;
      assert forall x :: x in rest + b ==> x in a + b;
      NewestSortsLast(rest, e, b);
      InsertAtEnd(a[0], SortBy(rest + b, OldestTs), e);
    }
  }

  /** A strictly newest event of the stream is the previous value, and it is added to the sequence as the last
      past point. */
  lemma NewestInsiderIsPrevious(ctx: DetectionContext, a: seq<Event>, e: Event, b: seq<Event>, current: int, count: int)
    requires Inside(e, ctx) && forall x :: x in a + b ==> x.ts < e.ts
    ensures T.PreviousTokens(a + [e] + b, T.StreamOf(ctx)) == Some(Weight(e))
    ensures var s := T.TokenSequence(a + [e] + b, T.StreamOf(ctx), current, count);
            var before := T.TokenSequence(a + b, T.StreamOf(ctx), current, count);
            count >= 1 ==>
              && (s != [] ==> |s| >= 2 && s[|s| - 2] == Weight(e) && s[|s| - 1] == Max(current, 0))
              && (before != [] ==> s == before[..|before| - 1] + [Weight(e), before[|before| - 1]])
  {
    var stream := T.StreamOf(ctx);
    var x, y := T.Matching(a, stream), T.Matching(b, stream);
    InsiderMatches(ctx, a, e, b);
    NewestSortsLast(x, e, y);
    assert e in x + [e] + y;
    FirstLeastIsLeast(x + [e] + y);
    TokensOfLast(SortBy(x + y, OldestTs), e, current);
  }

  lemma InsiderMatches(ctx: DetectionContext, a: seq<Event>, e: Event, b: seq<Event>)
    requires Inside(e, ctx) && forall x :: x in a + b ==> x.ts < e.ts
    ensures var stream := T.StreamOf(ctx);
            var x, y := T.Matching(a, stream), T.Matching(b, stream);
            && T.Matching(a + b, stream) == x + y && T.Matching(a + [e] + b, stream) == x + [e] + y
            && forall z :: z in x + y ==> z.ts < e.ts
  {
    var stream := T.StreamOf(ctx);
    var x, y := T.Matching(a, stream), T.Matching(b, stream);
    StreamIsByFields(e, ctx);
    MatchingAround(a, e, b, stream);
    FilterContents(a, T.Matcher(stream));
    FilterContents(b, T.Matcher(stream));
    forall z: Event | z in x + y ensures z.ts < e.ts {
      assert z in a + b;
    }
  }

  lemma TokensOfLast(past: seq<Event>, e: Event, current: int)
    ensures T.TokensOf(past + [e]) + [Max(current, 0)] == T.TokensOf(past) + [Weight(e), Max(current, 0)]
  {
    assert T.EventTokens(e) == Weight(e);
    assert T.TokensOf(past + [e]) == T.TokensOf(past) + [T.EventTokens(e)];
  }

  /** Whose tokens are judged: the context's, else the current event's, else the estimate, else its total. */
  lemma CurrentTokensInOrder(ctx: DetectionContext)
    ensures var own := if ctx.currentEvent.Some? then ctx.currentEvent.value.explosionTokens else None;
            && (ctx.explosionTokens.Some? ==> T.CurrentTokens(ctx) == ctx.explosionTokens)
            && (ctx.explosionTokens.None? && own.Some? ==> T.CurrentTokens(ctx) == own)
            && (ctx.explosionTokens.None? && own.None? && ctx.estimatedNextTokens.Some? ==>
                  T.CurrentTokens(ctx) == ctx.estimatedNextTokens)
            && (ctx.explosionTokens.None? && own.None? && ctx.estimatedNextTokens.None? ==>
                  T.CurrentTokens(ctx)
                  == if ctx.currentEvent.None? then None else Some(Max(ctx.currentEvent.value.totalTokens, 0)))
  {
  }

  // ---- the loop stream ----

  function Parts(projectId: string, provider: string, model: Option<string>, environment: Option<string>,
                 endpoint: Option<string>, feature: Option<string>, fingerprint: Option<string>): seq<string> {
    [projectId, provider, ModelOf(model), EnvironmentOf(environment), EndpointOf(endpoint), FeatureOf(feature),
     FingerprintOf(fingerprint)]
  }

  function EventParts(e: Event, projectId: string): seq<string> {
    Parts(projectId, e.provider, e.requestedModel, e.environment, e.endpoint, e.feature, e.fingerprint)
  }

  function ContextParts(ctx: DetectionContext): seq<string> {
    Parts(ctx.projectId, ctx.provider, ctx.requestedModel, ctx.environment, ctx.endpoint, ctx.feature, ctx.fingerprint)
  }

  function Join(parts: seq<string>): string
    requires parts != []
  {
    if |parts| == 1 then parts[0] else parts[0] + ":" + Join(parts[1..])
  }

  lemma Regroup(x: string, y: string, z: string)
    ensures x + ":" + (y + ":" + z) == x + ":" + y + ":" + z
  {
  }

  lemma JoinFrom(parts: seq<string>, i: nat)
    requires i + 1 < |parts|
    ensures Join(parts[i..]) == parts[i] + ":" + Join(parts[i+1..])
  {
    assert parts[i..][1..] == parts[i+1..];
  }

  lemma JoinOfSeven(p: seq<string>)
    requires |p| == 7
    ensures Join(p) == p[0] + ":" + p[1] + ":" + p[2] + ":" + p[3] + ":" + p[4] + ":" + p[5] + ":" + p[6]
  {
    assert p[0..] == p;
    JoinFrom(p, 0);
    JoinFrom(p, 1);
    Regroup(p[0], p[1], Join(p[2..]));
    var q1 := p[0] + ":" + p[1];
    JoinFrom(p, 2);
    Regroup(q1, p[2], Join(p[3..]));
    var q2 := q1 + ":" + p[2];
    JoinFrom(p, 3);
    Regroup(q2, p[3], Join(p[4..]));
    var q3 := q2 + ":" + p[3];
    JoinFrom(p, 4);
    Regroup(q3, p[4], Join(p[5..]));
    JoinFrom(p, 5);
    Regroup(q3 + ":" + p[4], p[5], Join(p[6..]));
  }

  lemma SignatureIsJoin(projectId: string, provider: string, model: Option<string>, environment: Option<string>,
                        endpoint: Option<string>, feature: Option<string>, fingerprint: Option<string>)
    ensures L.Signature(projectId, provider, model, environment, endpoint, feature, fingerprint)
            == Join(Parts(projectId, provider, model, environment, endpoint, feature, fingerprint))
  {
    JoinOfSeven(Parts(projectId, provider, model, environment, endpoint, feature, fingerprint));
  }

  /** Joined texts that agree in all parts but one agree exactly when that part does. */
  lemma {:induction false} OnePartDecides(a: seq<string>, b: seq<string>, k: nat)
    requires |a| == |b| && k < |a| && forall i | 0 <= i < |a| && i != k :: a[i] == b[i]
    ensures Join(a) == Join(b) <==> a[k] == b[k]
  {
    if |a| == 1 {
    } else if k == 0 {
      assert a[1..] == b[1..];
      var after := ":" + Join(a[1..]);
      Cancel("", a[0], b[0], after);
      assert Join(a) == "" + a[0] + after && Join(b) == "" + b[0] + after;
    } else {
      OnePartDecides(a[1..], b[1..], k - 1);
      Cancel(a[0] + ":", Join(a[1..]), Join(b[1..]), "");
      assert Join(a) == a[0] + ":" + Join(a[1..]) + "" && Join(b) == a[0] + ":" + Join(b[1..]) + "";
    }
  }

  /** No part but the last is nested in the other text's part at its place. */
  predicate Unnested(a: seq<string>, b: seq<string>)
    requires |a| == |b|
  {
    forall k | 0 <= k < |a| - 1 :: !Nested(a[k], b[k]) && !Nested(b[k], a[k])
  }

  /** Such joined texts agree exactly when every part does. */
  lemma {:induction false} AllPartsDecide(a: seq<string>, b: seq<string>)
    requires |a| == |b| && a != [] && Unnested(a, b)
    ensures Join(a) == Join(b) <==> a == b
  {
    if |a| == 1 {
    } else {
      AllPartsDecide(a[1..], b[1..]);
      ColonSplit(a[0], b[0], Join(a[1..]), Join(b[1..]));
      assert a == [a[0]] + a[1..] && b == [b[0]] + b[1..];
    }
  }

  lemma SignaturesAreJoins(e: Event, ctx: DetectionContext)
    ensures L.EventSignature(e, ctx.projectId) == Join(EventParts(e, ctx.projectId))
    ensures L.ContextSignature(ctx) == Join(ContextParts(ctx))
  {
    SignatureIsJoin(ctx.projectId, e.provider, e.requestedModel, e.environment, e.endpoint, e.feature, e.fingerprint);
    SignatureIsJoin(ctx.projectId, ctx.provider, ctx.requestedModel, ctx.environment, ctx.endpoint, ctx.feature,
                    ctx.fingerprint);
  }

  predicate InWindow(e: Event, ctx: DetectionContext) {
    e.createdAt >= ctx.now - 1_000_000 * ctx.config.loopWindowSeconds
  }

  predicate WithinGap(newer: Event, older: Event, ctx: DetectionContext) {
    (newer.createdAt - older.createdAt) as real <= 1000000.0 * ctx.config.loopMaxGapSeconds
  }

  /** The failures that the walk skips: a status code from 400 on, a failing status word, or an error type. */
  /** The text spells the lower-case word in small or capital letters. */
  predicate Spells(s: string, word: string) {
    && |s| == |word|
    && forall i | 0 <= i < |s| :: s[i] == word[i] || s[i] as int + 32 == word[i] as int
  }

  lemma LowerSpells(s: string, word: string)
    requires forall i | 0 <= i < |word| :: 'a' <= word[i] <= 'z'
    ensures Lower(s) == word <==> Spells(s, word)
  {
    if Spells(s, word) {
      forall i | 0 <= i < |s| ensures Lower(s)[i] == word[i] {
      }
    }
    if Lower(s) == word {
      forall i | 0 <= i < |s| ensures s[i] == word[i] || s[i] as int + 32 == word[i] as int {
        assert Lower(s)[i] == word[i];
      }
    }
  }

  predicate FailureWord(s: string) {
    Spells(s, "error") || Spells(s, "failed") || Spells(s, "fail")
  }

  predicate Failed(e: Event) {
    || (e.httpStatus.Some? && e.httpStatus.value >= 400)
    || (e.errorType.Some? && e.errorType.value != "")
    || (e.status.Some? && FailureWord(Strip(e.status.value)))
  }

  /** No success before place i, or the nearest one is within the gap. */
  predicate KeepsPace(s: seq<Event>, i: nat, ctx: DetectionContext)
    requires i < |s|
  {
    forall j | 0 <= j < i && !Failed(s[j]) && (forall k | j < k < i :: Failed(s[k])) :: WithinGap(s[j], s[i], ctx)
  }

  lemma {:induction false} LastSuccessIsNearest(s: seq<Event>, i: nat)
    requires i <= |s|
    ensures L.LastSuccessAt(s[..i]).None? ==> forall j | 0 <= j < i :: Failed(s[j])
    ensures L.LastSuccessAt(s[..i]).Some? ==>
              exists j :: 0 <= j < i && !Failed(s[j]) && s[j].createdAt == L.LastSuccessAt(s[..i]).value
                          && forall k | j < k < i :: Failed(s[k])
  {
    if i == 0 {
    } else {
      LastSuccessIsNearest(s, i - 1);
      assert s[..i][..i-1] == s[..i-1] && s[..i][i-1] == s[i-1];
      FailureIsByFields(s[i-1]);
    }
  }

  lemma FailureIsByFields(e: Event)
    ensures L.IsFailure(e) <==> Failed(e)
  {
    assert Strip("") == "" && Lower("") == "";
    if e.status.Some? {
      LowerSpells(Strip(e.status.value), "error");
      LowerSpells(Strip(e.status.value), "failed");
      LowerSpells(Strip(e.status.value), "fail");
    }
  }

  lemma PaceIsGap(s: seq<Event>, i: nat, ctx: DetectionContext)
    requires i < |s|
    ensures KeepsPace(s, i, ctx)
            <==> (L.LastSuccessAt(s[..i]).Some? ==> !L.GapTooLarge(L.LastSuccessAt(s[..i]).value, s[i].createdAt, ctx))
  {
    LastSuccessIsNearest(s, i);
    if L.LastSuccessAt(s[..i]).Some? {
      var j :| 0 <= j < i && !Failed(s[j]) && s[j].createdAt == L.LastSuccessAt(s[..i]).value
               && forall k | j < k < i :: Failed(s[k]);
      forall j' | 0 <= j' < i && !Failed(s[j']) && (forall k | j' < k < i :: Failed(s[k])) ensures j' == j {
      }
    }
  }

  /** An event in the window and within the gap that agrees with the context in all parts but one continues the
      walk exactly when it agrees in that part too: model, environment, endpoint, feature or fingerprint. */
  lemma OneFieldDecidesWalk(s: seq<Event>, i: nat, ctx: DetectionContext, field: nat)
    requires i < |s| && InWindow(s[i], ctx) && KeepsPace(s, i, ctx) && field < 7
    requires forall k | 0 <= k < 7 && k != field :: EventParts(s[i], ctx.projectId)[k] == ContextParts(ctx)[k]
    ensures L.Follows(s, i, ctx) <==> EventParts(s[i], ctx.projectId)[field] == ContextParts(ctx)[field]
  {
    SignaturesAreJoins(s[i], ctx);
    OnePartDecides(EventParts(s[i], ctx.projectId), ContextParts(ctx), field);
    PaceIsGap(s, i, ctx);
  }

  /** No event from the first one on whose request fingerprint differs is counted: the history may as well end
      there. */
  lemma ForeignFingerprintEndsWalk(ctx: DetectionContext, p: nat)
    requires p < |L.ProviderNewestFirst(ctx)|
    requires var e := L.ProviderNewestFirst(ctx)[p];
             && FingerprintOf(e.fingerprint) != FingerprintOf(ctx.fingerprint)
             && forall k | 0 <= k < 6 :: EventParts(e, ctx.projectId)[k] == ContextParts(ctx)[k]
    ensures L.SequenceCount(ctx) == L.SequenceCount(ctx.(recentEvents := L.ProviderNewestFirst(ctx)[..p])) <= p
  {
    var s := L.ProviderNewestFirst(ctx);
    SignaturesAreJoins(s[p], ctx);
    OnePartDecides(EventParts(s[p], ctx.projectId), ContextParts(ctx), 6);
    assert !L.Follows(s, p, ctx);
    WalkCutAt(ctx, p);
  }

  lemma CutHistory(ctx: DetectionContext, p: nat)
    requires p <= |L.ProviderNewestFirst(ctx)|
    ensures var s := L.ProviderNewestFirst(ctx); L.ProviderNewestFirst(ctx.(recentEvents := s[..p])) == s[..p]
  {
    var mine := Filter(ctx.recentEvents, L.OfProvider(ctx.provider));
    var s := SortBy(mine, NewestCreated);
    FilterContents(ctx.recentEvents, L.OfProvider(ctx.provider));
    SortKeepsMembers(mine, NewestCreated);
    forall e | e in s[..p] ensures L.OfProvider(ctx.provider)(e) {
      assert e in s;
    }
    FilterAll(s[..p], L.OfProvider(ctx.provider));
    SortIsSorted(mine, NewestCreated);
    SortOfSorted(s[..p], NewestCreated);
  }

  lemma WalkCutAt(ctx: DetectionContext, p: nat)
    requires p < |L.ProviderNewestFirst(ctx)| && !L.Follows(L.ProviderNewestFirst(ctx), p, ctx)
    ensures L.SequenceCount(ctx) == L.SequenceCount(ctx.(recentEvents := L.ProviderNewestFirst(ctx)[..p])) <= p
  {
    var s := L.ProviderNewestFirst(ctx);
    var cut := ctx.(recentEvents := s[..p]);
    var m := L.LongestAdmissible(s, ctx);
    CutHistory(ctx, p);
    H.PrefixWalk(s, p, ctx);
    L.SameWalk(s[..p], ctx, cut);
    assert m <= p;
    assert s[..p][..m] == s[..m];
    SuccessesAtMost(s[..m]);
  }

  lemma {:induction false} SuccessesAtMost(s: seq<Event>)
    ensures L.Successes(s) <= |s|
  {
    if s == [] {
    } else {
      SuccessesAtMost(s[..|s| - 1]);
    }
  }

  // ---- the whole walk by fields ----

  predicate Continues(s: seq<Event>, i: nat, ctx: DetectionContext)
    requires i < |s|
  {
    InWindow(s[i], ctx) && EventParts(s[i], ctx.projectId) == ContextParts(ctx) && KeepsPace(s, i, ctx)
  }

  function Counted(s: seq<Event>, n: nat): nat
    requires n <= |s|
  {
    if n == 0 then 0 else Counted(s, n - 1) + if Failed(s[n-1]) then 0 else 1
  }

  lemma {:induction false} CountedIsSuccesses(s: seq<Event>, n: nat)
    requires n <= |s|
    ensures L.Successes(s[..n]) == Counted(s, n)
  {
    if n == 0 {
    } else {
      CountedIsSuccesses(s, n - 1);
      assert s[..n][..n-1] == s[..n-1];
      FailureIsByFields(s[n-1]);
    }
  }

  lemma ContinuesIsFollows(s: seq<Event>, i: nat, ctx: DetectionContext)
    requires i < |s| && Unnested(EventParts(s[i], ctx.projectId), ContextParts(ctx))
    ensures L.Follows(s, i, ctx) <==> Continues(s, i, ctx)
  {
    SignaturesAreJoins(s[i], ctx);
    AllPartsDecide(EventParts(s[i], ctx.projectId), ContextParts(ctx));
    PaceIsGap(s, i, ctx);
  }

  /** The count without the detector's own terms: with no part nested in another, it is the number of successes
      among the first n events when exactly those continue the walk. */
  lemma WalkByFields(ctx: DetectionContext, n: nat)
    requires var s := L.ProviderNewestFirst(ctx);
             && (forall e :: e in s ==> Unnested(EventParts(e, ctx.projectId), ContextParts(ctx)))
             && n <= |s| && (forall i | 0 <= i < n :: Continues(s, i, ctx)) && (n < |s| ==> !Continues(s, n, ctx))
    ensures L.SequenceCount(ctx) == Counted(L.ProviderNewestFirst(ctx), n)
  {
    var s := L.ProviderNewestFirst(ctx);
    forall i | 0 <= i < n ensures L.Follows(s, i, ctx) {
      assert s[i] in s;
      ContinuesIsFollows(s, i, ctx);
    }
    if n < |s| {
      assert s[n] in s;
      ContinuesIsFollows(s, n, ctx);
      L.WalkStops(s, n, ctx);
    } else {
      L.WalkEnds(s, n, ctx);
    }
    CountedIsSuccesses(s, n);
  }

  // ---- the verdicts by fields ----

  /** Both detectors judge the same tokens: the loop detector stands down when they reach the floor and exceed the
      previous value, if there is one; and parallel traffic counts only from twice the required length on. */
  lemma LoopVerdictByFields(ctx: DetectionContext)
    ensures var tokens, count := T.CurrentTokens(ctx), L.SequenceCount(ctx);
            var grows := && tokens.Some? && Max(tokens.value, 0) >= ctx.config.growthMinTokens
                         && (ctx.previousTokens.Some? ==> Max(tokens.value, 0) > Max(ctx.previousTokens.value, 0));
            var parallel := ctx.requests60s.Some? && ctx.requests60s.value >= ctx.config.loopConcurrencyThreshold;
            L.LoopSuspected(ctx)
            <==> && ctx.recentEvents != [] && !grows && count >= ctx.config.loopCount
                 && (parallel ==> count >= 2 * ctx.config.loopCount)
  {
  }

  /** The same context with live traffic below the concurrency threshold of growth. */
  predicate LiveVersion(ctx: DetectionContext, live: DetectionContext) {
    && live == ctx.(requests60s := live.requests60s, tokens60s := live.tokens60s)
    && live.requests60s.Some? && 0 < live.requests60s.value < ctx.config.growthConcurrencyThreshold
    && live.tokens60s.Some? && 0 < live.tokens60s.value
  }

  /** The absolute threshold is inclusive; growth needs live traffic below its own concurrency threshold, and
      the amount of it does not matter. */
  lemma ExplosionVerdictByFields(ctx: DetectionContext)
    ensures T.AbsoluteHit(ctx) <==> T.CurrentTokens(ctx).Some? && ctx.config.explosionAbs <= T.CurrentTokens(ctx).value
    ensures T.GrowthHit(ctx) ==>
              LiveVersion(ctx, ctx) && forall live | LiveVersion(ctx, live) :: T.GrowthHit(live)
  {
    if T.GrowthHit(ctx) {
      forall live | LiveVersion(ctx, live) ensures T.GrowthHit(live) {
        assert T.CurrentTokens(live) == T.CurrentTokens(ctx) && T.StreamOf(live) == T.StreamOf(ctx);
      }
    }
  }

  // ---- the context that ingest builds ----

  /** The detectors see the event's own stream, its own tokens and the live counters; the event itself is the
      current one, and its provider is stripped with "unknown" for a blank one. */
  lemma ContextIsTheEvents(projectId: string, event: Event, recent: seq<Event>, requests60s: int, tokens60s: int,
                           now: int, config: DetectorConfig)
    ensures var ctx := I.BuildContext(projectId, event, recent, requests60s, tokens60s, now, config);
            var provider := TrimmedOr(Some(event.provider), "", "unknown");
            && EventParts(event.(provider := provider), projectId) == ContextParts(ctx)
            && SameProviderAndModel(event.(provider := provider), ctx) && IsCurrent(event, ctx)
            && T.CurrentTokens(ctx)
               == Some(if event.explosionTokens.Some? then event.explosionTokens.value else event.totalTokens)
            && ctx.previousTokens == T.PreviousTokens(recent, T.StreamOf(ctx))
            && ctx.requests60s == Some(requests60s) && ctx.tokens60s == Some(tokens60s)
            && ctx.recentEvents == recent && ctx.now == now && ctx.config == config
  {
  }
}
