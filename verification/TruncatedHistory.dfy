/** The truncated history that ingest reads, and what it loses for the loop detector. */
module TruncatedHistory {
  import opened Text
  import opened Sorting
  import opened Events
  import L = LoopSuspect

  function RecentLimit(config: DetectorConfig): int {
    Max(config.retryStormCount, config.loopCount) + 8
  }

  function OfItsProvider(ctx: DetectionContext): seq<Event> {
    Filter(ctx.recentEvents, L.OfProvider(ctx.provider))
  }

  /** The provider's events, newest client timestamp first. */
  function ByTimestamp(ctx: DetectionContext): seq<Event> {
    SortBy(OfItsProvider(ctx), NewestTs)
  }

  predicate ValidContext(ctx: DetectionContext) {
    ctx.config.loopCount >= 0
  }

  function ReadSize(ctx: DetectionContext): nat
    requires ValidContext(ctx)
  {
    Min(RecentLimit(ctx.config), |ByTimestamp(ctx)|)
  }

  /** The repository's newest events of the provider, by client timestamp. */
  function ListRecent(ctx: DetectionContext): seq<Event>
    requires ValidContext(ctx)
  {
    ByTimestamp(ctx)[..ReadSize(ctx)]
  }

  /** The detectors' context with what was read in place of the whole history. */
  function Read(ctx: DetectionContext): DetectionContext
    requires ValidContext(ctx)
  {
    ctx.(recentEvents := ListRecent(ctx))
  }

  function Failures(s: seq<Event>): nat {
    |Filter(s, L.IsFailure)|
  }

  /** The walk over the read never overcounts, and while at most 8 of the events read are failures its verdict
      is that of the whole history. */
  predicate JudgedAlike(ctx: DetectionContext)
    requires ValidContext(ctx)
  {
    && L.SequenceCount(Read(ctx)) <= L.SequenceCount(ctx)
    && (Failures(ListRecent(ctx)) <= 8 ==>
          (L.SequenceCount(Read(ctx)) >= ctx.config.loopCount <==> L.SequenceCount(ctx) >= ctx.config.loopCount))
  }

  /** No event outside the read arrived after one inside it. */
  predicate ReadsNewest(ctx: DetectionContext)
    requires ValidContext(ctx)
  {
    var s := ByTimestamp(ctx);
    forall i, j | 0 <= i < ReadSize(ctx) && ReadSize(ctx) <= j < |s| :: s[j].createdAt < s[i].createdAt
  }

  // ---- reading the newest arrivals is enough ----

  lemma ReadIsOfProvider(ctx: DetectionContext)
    requires ValidContext(ctx)
    ensures OfItsProvider(Read(ctx)) == ListRecent(ctx)
    ensures L.ProviderNewestFirst(Read(ctx)) == SortBy(ListRecent(ctx), NewestCreated)
  {
    SortByIsSort(OfItsProvider(ctx), NewestTs);
    FilterContents(ctx.recentEvents, L.OfProvider(ctx.provider));
    forall e | e in ListRecent(ctx) ensures L.OfProvider(ctx.provider)(e) {
      assert e in ByTimestamp(ctx) && e in multiset(ByTimestamp(ctx));
      assert e in OfItsProvider(ctx);
    }
    FilterAll(ListRecent(ctx), L.OfProvider(ctx.provider));
  }

  /** The walk over such a read sees the first events of the walk over everything. */
  lemma ReadIsPrefix(ctx: DetectionContext)
    requires ValidContext(ctx) && L.DistinctArrival(OfItsProvider(ctx)) && ReadsNewest(ctx)
    ensures ReadSize(ctx) <= |L.ProviderNewestFirst(ctx)|
    ensures L.ProviderNewestFirst(Read(ctx)) == L.ProviderNewestFirst(ctx)[..ReadSize(ctx)]
  {
    var mine, byTs, n := OfItsProvider(ctx), ByTimestamp(ctx), ReadSize(ctx);
    SortContents(mine, NewestTs);
    assert byTs == byTs[..n] + byTs[n..];
    forall x, y | x in byTs[..n] && y in byTs[n..] ensures NewestCreated(x) < NewestCreated(y) {
      var i :| 0 <= i < n && byTs[i] == x;
      var j :| n <= j < |byTs| && byTs[j] == y;
    }
    SortOfParts(byTs[..n], byTs[n..], mine, NewestCreated);
    ReadIsOfProvider(ctx);
  }

  lemma PrefixWalk(s: seq<Event>, n: nat, ctx: DetectionContext)
    requires n <= |s|
    ensures L.LongestAdmissible(s[..n], ctx) == Min(n, L.LongestAdmissible(s, ctx))
  {
    var m := Min(n, L.LongestAdmissible(s, ctx));
    forall i | 0 <= i < n ensures L.Follows(s[..n], i, ctx) == L.Follows(s, i, ctx) {
      FollowsInPrefix(s, n, i, ctx);
    }
    assert L.Admissible(s[..n], m, ctx);
    if m < n {
      assert !L.Admissible(s, m + 1, ctx);
      L.WalkStops(s[..n], m, ctx);
    }
  }

  lemma FollowsInPrefix(s: seq<Event>, n: nat, i: nat, ctx: DetectionContext)
    requires i < n <= |s|
    ensures L.Follows(s[..n], i, ctx) == L.Follows(s, i, ctx)
  {
    assert s[..n][..i] == s[..i];
  }

  lemma {:induction false} SuccessesAndFailures(s: seq<Event>)
    ensures L.Successes(s) + Failures(s) == |s|
  {
    if s == [] {
    } else {
      var last := s[|s| - 1];
      SuccessesAndFailures(s[..|s| - 1]);
      assert s == s[..|s| - 1] + [last] && [last][1..] == [];
      FilterAppend(s[..|s| - 1], [last], L.IsFailure);
    }
  }

  lemma FailuresOfSort(s: seq<Event>)
    ensures Failures(SortBy(s, NewestCreated)) == Failures(s)
  {
    FilterSort(s, NewestCreated, L.IsFailure);
    SortByIsSort(Filter(s, L.IsFailure), NewestCreated);
  }

  /** Reading only the newest `max(retry count, loop count) + 8` events loses nothing for the loop verdict
      when the read holds the newest arrivals, in whatever order their client clocks put them. */
  lemma TruncatedHistoryKeepsVerdict(ctx: DetectionContext)
    requires ValidContext(ctx) && L.DistinctArrival(OfItsProvider(ctx)) && ReadsNewest(ctx)
    ensures JudgedAlike(ctx)
  {
    var s, n := L.ProviderNewestFirst(ctx), ReadSize(ctx);
    var full := L.LongestAdmissible(s, ctx);
    ReadIsPrefix(ctx);
    ReadIsOfProvider(ctx);
    PrefixWalk(s, n, ctx);
    L.SameWalk(s[..n], ctx, Read(ctx));
    var m := Min(n, full);
    assert s[..n][..m] == s[..m];
    L.SuccessesGrow(s, m, full);
    if full > n {
      FailuresOfSort(ListRecent(ctx));
      SuccessesAndFailures(s[..n]);
      ReadIsFull(ctx);
    }
  }

  lemma ReadIsFull(ctx: DetectionContext)
    requires ValidContext(ctx)
    ensures |L.ProviderNewestFirst(ctx)| == |ByTimestamp(ctx)|
    ensures ReadSize(ctx) < |ByTimestamp(ctx)| ==> ReadSize(ctx) == RecentLimit(ctx.config)
  {
    SortByIsSort(OfItsProvider(ctx), NewestTs);
    SortByIsSort(OfItsProvider(ctx), NewestCreated);
  }

  // ---- histories of the same shape ----

  /** Same timestamps and provider; streams and outcomes may differ. */
  predicate Alike(a: Event, b: Event) {
    a.ts == b.ts && a.createdAt == b.createdAt && a.provider == b.provider
  }

  predicate AllAlike(a: seq<Event>, b: seq<Event>) {
    |a| == |b| && forall i | 0 <= i < |a| :: Alike(a[i], b[i])
  }

  /** The same events arrive at the same times and as many are read; everything else may differ. */
  predicate SameShape(ctx: DetectionContext, other: DetectionContext) {
    && ctx.provider == other.provider && ValidContext(other)
    && RecentLimit(ctx.config) == RecentLimit(other.config)
    && AllAlike(ctx.recentEvents, other.recentEvents)
  }

  lemma {:induction false} FilterAlike(a: seq<Event>, b: seq<Event>, provider: string)
    requires AllAlike(a, b)
    ensures AllAlike(Filter(a, L.OfProvider(provider)), Filter(b, L.OfProvider(provider)))
  {
    if a == [] {
    } else {
      FilterAlike(a[1..], b[1..], provider);
      assert Alike(a[0], b[0]);
    }
  }

  lemma {:induction false} InsertAlike(x: Event, y: Event, a: seq<Event>, b: seq<Event>, key: Event -> int)
    requires AllAlike(a, b) && Alike(x, y) && forall e, f | Alike(e, f) :: key(e) == key(f)
    ensures AllAlike(Insert(x, a, key), Insert(y, b, key))
  {
    if a == [] {
    } else {
      assert Alike(a[0], b[0]);
      InsertAlike(x, y, a[1..], b[1..], key);
    }
  }

  lemma {:induction false} SortAlike(a: seq<Event>, b: seq<Event>, key: Event -> int)
    requires AllAlike(a, b) && forall e, f | Alike(e, f) :: key(e) == key(f)
    ensures AllAlike(SortBy(a, key), SortBy(b, key))
  {
    if a == [] {
    } else {
      SortAlike(a[1..], b[1..], key);
      InsertAlike(a[0], b[0], SortBy(a[1..], key), SortBy(b[1..], key), key);
    }
  }

  lemma ShapeDecidesRead(ctx: DetectionContext, other: DetectionContext)
    requires ValidContext(ctx) && SameShape(ctx, other) && L.DistinctArrival(OfItsProvider(ctx))
    ensures AllAlike(OfItsProvider(ctx), OfItsProvider(other)) && L.DistinctArrival(OfItsProvider(other))
    ensures AllAlike(ByTimestamp(ctx), ByTimestamp(other)) && ReadSize(ctx) == ReadSize(other)
    ensures ReadsNewest(ctx) <==> ReadsNewest(other)
  {
    FilterAlike(ctx.recentEvents, other.recentEvents, ctx.provider);
    var a, b := OfItsProvider(ctx), OfItsProvider(other);
    SortAlike(a, b, NewestTs);
    forall i, j | 0 <= i < j < |b| ensures NewestCreated(b[i]) != NewestCreated(b[j]) {
      assert Alike(a[i], b[i]) && Alike(a[j], b[j]);
    }
    var s, t := ByTimestamp(ctx), ByTimestamp(other);
    assert forall i | 0 <= i < |s| :: Alike(s[i], t[i]);
  }

  // ---- a later outsider can always mislead ----

  /** Every event a success of one stream, except a foreign one at the given arrival time. */
  function Label(e: Event, cut: int): Event {
    Event("", e.ts, e.createdAt, e.provider, None, None, 0, None, None, None, None, None,
          if e.createdAt == cut then Some("other") else None, None)
  }

  predicate Labelled(s: seq<Event>, cut: int, lo: int, hi: int) {
    forall e :: e in s ==> e == Label(e, cut) && lo <= e.createdAt <= hi
  }

  /** A context of the same shape whose window and gap span the whole history. */
  function Misled(ctx: DetectionContext, cut: int, lo: int, hi: int): DetectionContext {
    var labelled := seq(|ctx.recentEvents|, i requires 0 <= i < |ctx.recentEvents| => Label(ctx.recentEvents[i], cut));
    ctx.(requestedModel := None, environment := None, endpoint := None, feature := None, fingerprint := None, now := hi,
         recentEvents := labelled,
         config := ctx.config.(loopWindowSeconds := hi - lo, loopMaxGapSeconds := (hi - lo) as real))
  }

  lemma OtherFeatureOtherStream(e: Event, ctx: DetectionContext)
    requires e.feature == Some("other") && ctx.feature == None
    requires e.fingerprint == None && ctx.fingerprint == None
    ensures !L.InWindowAndStream(e, ctx)
  {
    assert Feature(Some("other")) == "other" && Feature(None) == "unknown";
    var a, b := L.EventSignature(e, ctx.projectId), L.ContextSignature(ctx);
    var tail := ":unknown";
    assert OrNonEmpty(Strip(Or(None, "unknown")), "unknown") == "unknown";
    assert a[|a| - 9] == 'r' && b[|b| - 9] == 'n';
  }

  lemma {:induction false} Bounds(s: seq<Event>) returns (lo: int, hi: int)
    ensures lo <= hi && forall e :: e in s ==> lo <= e.createdAt <= hi
  {
    if s == [] {
      lo, hi := 0, 0;
    } else {
      lo, hi := Bounds(s[1..]);
      lo, hi := Min(lo, s[0].createdAt), Max(hi, s[0].createdAt);
      assert s == [s[0]] + s[1..];
    }
  }

  lemma WithinGap(newer: int, older: int, lo: int, hi: int)
    requires lo <= newer <= hi && lo <= older <= hi
    ensures (newer - older) as real <= (hi - lo) as real * TICKS_PER_SECOND as real
  {
  }

  /** In the misled context every labelled event but the foreign one continues the walk. */
  lemma LabelledFollows(ctx: DetectionContext, cut: int, lo: int, hi: int, s: seq<Event>, i: nat)
    requires i < |s| && lo <= hi && Labelled(s, cut, lo, hi) && forall e :: e in s ==> e.provider == ctx.provider
    ensures !L.IsFailure(s[i])
    ensures L.Follows(s, i, Misled(ctx, cut, lo, hi)) <==> s[i].createdAt != cut
  {
    var misled := Misled(ctx, cut, lo, hi);
    assert s[i] in s;
    if s[i].createdAt == cut {
      OtherFeatureOtherStream(s[i], misled);
    } else {
      assert L.EventSignature(s[i], ctx.projectId) == L.ContextSignature(misled);
      assert L.InWindowAndStream(s[i], misled);
      if i > 0 {
        assert s[i-1] in s && s[..i][i-1] == s[i-1];
        LabelledSucceeds(s[i-1], cut);
        WithinGap(s[i-1].createdAt, s[i].createdAt, lo, hi);
      }
    }
    LabelledSucceeds(s[i], cut);
  }

  lemma LabelledSucceeds(e: Event, cut: int)
    requires e == Label(e, cut)
    ensures !L.IsFailure(e)
  {
    assert Strip("") == "" && Lower("") == "";
  }

  /** The walk stops at the foreign event, or at the end, having counted everything before. */
  lemma LabelledWalk(ctx: DetectionContext, cut: int, lo: int, hi: int, s: seq<Event>, n: nat)
    requires n <= |s| && lo <= hi && Labelled(s, cut, lo, hi) && forall e :: e in s ==> e.provider == ctx.provider
    requires forall i | 0 <= i < n :: s[i].createdAt != cut
    requires n < |s| ==> s[n].createdAt == cut
    ensures L.LongestAdmissible(s, Misled(ctx, cut, lo, hi)) == n
    ensures L.Successes(s[..n]) == n
  {
    var misled := Misled(ctx, cut, lo, hi);
    forall i | 0 <= i < n ensures L.Follows(s, i, misled) {
      LabelledFollows(ctx, cut, lo, hi, s, i);
    }
    if n < |s| {
      LabelledFollows(ctx, cut, lo, hi, s, n);
      L.WalkStops(s, n, misled);
    } else {
      L.WalkEnds(s, n, misled);
    }
    AllSucceed(s[..n], cut);
  }

  lemma {:induction false} AllSucceed(s: seq<Event>, cut: int)
    requires forall e :: e in s ==> e == Label(e, cut)
    ensures L.Successes(s) == |s|
  {
    if s == [] {
    } else {
      AllSucceed(s[..|s| - 1], cut);
      LabelledSucceeds(s[|s| - 1], cut);
    }
  }

  lemma LatestFrom(s: seq<Event>, n: nat) returns (o: nat)
    requires n < |s|
    ensures n <= o < |s| && forall j | n <= j < |s| :: s[j].createdAt <= s[o].createdAt
    decreases |s| - n
  {
    if n == |s| - 1 {
      o := n;
    } else {
      o := LatestFrom(s, n + 1);
      if s[n].createdAt > s[o].createdAt {
        o := n;
      }
    }
  }

  /** What the misled context's history looks like in any order. */
  lemma MisledHistory(ctx: DetectionContext, cut: int, lo: int, hi: int)
    requires ValidContext(ctx) && lo <= hi && forall e :: e in ctx.recentEvents ==> lo <= e.createdAt <= hi
    ensures SameShape(ctx, Misled(ctx, cut, lo, hi))
    ensures forall e :: e in OfItsProvider(Misled(ctx, cut, lo, hi)) ==>
                          e == Label(e, cut) && lo <= e.createdAt <= hi && e.provider == ctx.provider
  {
    var misled := Misled(ctx, cut, lo, hi);
    FilterContents(misled.recentEvents, L.OfProvider(ctx.provider));
    forall e | e in misled.recentEvents ensures e == Label(e, cut) && lo <= e.createdAt <= hi {
      var i :| 0 <= i < |misled.recentEvents| && misled.recentEvents[i] == e;
      assert e == Label(ctx.recentEvents[i], cut) && ctx.recentEvents[i] in ctx.recentEvents;
    }
  }

  /** Fewer events arrived after the latest outsider than were read: one of those read arrived before it. */
  lemma OutsiderIsEarly(mine: seq<Event>, byTs: seq<Event>, n: nat, o: nat, i: nat, p: nat)
    requires DistinctKeys(mine, NewestCreated) && byTs == SortBy(mine, NewestTs) && i < n <= o < |byTs|
    requires forall j | n <= j < |byTs| :: byTs[j].createdAt <= byTs[o].createdAt
    requires byTs[i].createdAt < byTs[o].createdAt
    requires p < |mine| && |SortBy(mine, NewestCreated)| == |mine|
    requires SortBy(mine, NewestCreated)[p].createdAt == byTs[o].createdAt
    ensures p < n
  {
    if n <= p {
      ReadAreNewest(mine, byTs, n, o, p);
    }
    assert byTs[..n][i] == byTs[i];
  }

  /** If n events arrived after the outsider or with it, they are the n that were read. */
  lemma ReadAreNewest(mine: seq<Event>, byTs: seq<Event>, n: nat, o: nat, p: nat)
    requires DistinctKeys(mine, NewestCreated) && byTs == SortBy(mine, NewestTs) && n <= o < |byTs|
    requires forall j | n <= j < |byTs| :: byTs[j].createdAt <= byTs[o].createdAt
    requires n <= p < |mine| && |SortBy(mine, NewestCreated)| == |mine|
    requires SortBy(mine, NewestCreated)[p].createdAt == byTs[o].createdAt
    ensures forall x :: x in byTs[..n] ==> x.createdAt >= byTs[o].createdAt
  {
    NewestAreRead(mine, byTs, n, o, p);
    SubsetFills(SortBy(mine, NewestCreated)[..n], byTs[..n], NewestCreated);
  }

  lemma NewestAreRead(mine: seq<Event>, byTs: seq<Event>, n: nat, o: nat, p: nat)
    requires DistinctKeys(mine, NewestCreated) && byTs == SortBy(mine, NewestTs) && n <= o < |byTs|
    requires forall j | n <= j < |byTs| :: byTs[j].createdAt <= byTs[o].createdAt
    requires n <= p < |mine| && |SortBy(mine, NewestCreated)| == |mine|
    requires SortBy(mine, NewestCreated)[p].createdAt == byTs[o].createdAt
    ensures var newest := SortBy(mine, NewestCreated)[..n];
            && DistinctKeys(newest, NewestCreated)
            && (forall k | 0 <= k < n :: newest[k].createdAt >= byTs[o].createdAt)
            && (forall e :: e in newest ==> e in byTs[..n])
  {
    var s := SortBy(mine, NewestCreated);
    SortByIsSort(mine, NewestCreated);
    DistinctPermutation(mine, s, NewestCreated);
    SortKeepsMembers(mine, NewestCreated);
    SortKeepsMembers(mine, NewestTs);
    forall k | 0 <= k < n ensures s[k].createdAt >= byTs[o].createdAt && s[k] in byTs[..n] {
      assert NewestCreated(s[k]) <= NewestCreated(s[p]);
      assert k < p ==> NewestCreated(s[k]) != NewestCreated(s[p]);
      assert s[k] in s && s[k] in byTs;
      var q :| 0 <= q < |byTs| && byTs[q] == s[k];
    }
  }

  /** Whenever some event outside the read arrived after one inside it, streams and outcomes can be such that
      the walk over the read overcounts. */
  lemma LateArrivalOvercounts(ctx: DetectionContext) returns (misled: DetectionContext)
    requires ValidContext(ctx) && L.DistinctArrival(OfItsProvider(ctx)) && !ReadsNewest(ctx)
    ensures SameShape(ctx, misled)
    ensures L.SequenceCount(Read(misled)) > L.SequenceCount(misled)
  {
    var byTs, n := ByTimestamp(ctx), ReadSize(ctx);
    var i, j :| 0 <= i < n && n <= j < |byTs| && byTs[j].createdAt >= byTs[i].createdAt;
    var o := LatestFrom(byTs, n);
    SortByIsSort(OfItsProvider(ctx), NewestTs);
    DistinctPermutation(OfItsProvider(ctx), byTs, NewestCreated);
    assert NewestCreated(byTs[i]) != NewestCreated(byTs[o]);
    var cut := byTs[o].createdAt;
    var lo, hi := Bounds(ctx.recentEvents);
    misled := Misled(ctx, cut, lo, hi);
    MisledHistory(ctx, cut, lo, hi);
    ShapeDecidesRead(ctx, misled);
    MisledRead(ctx, cut, lo, hi, o);
    MisledWhole(ctx, cut, lo, hi, i, o);
  }

  lemma MisledRead(ctx: DetectionContext, cut: int, lo: int, hi: int, o: nat)
    requires ValidContext(ctx) && lo <= hi && forall e :: e in ctx.recentEvents ==> lo <= e.createdAt <= hi
    requires L.DistinctArrival(OfItsProvider(ctx))
    requires ReadSize(ctx) <= o < |ByTimestamp(ctx)| && ByTimestamp(ctx)[o].createdAt == cut
    ensures ValidContext(Misled(ctx, cut, lo, hi))
    ensures L.SequenceCount(Read(Misled(ctx, cut, lo, hi))) == ReadSize(ctx)
  {
    var misled, n := Misled(ctx, cut, lo, hi), ReadSize(ctx);
    MisledHistory(ctx, cut, lo, hi);
    ShapeDecidesRead(ctx, misled);
    ReadIsOfProvider(misled);
    var r := SortBy(ByTimestamp(misled)[..n], NewestCreated);
    assert Alike(ByTimestamp(ctx)[o], ByTimestamp(misled)[o]);
    ReadAvoids(OfItsProvider(misled), n, o);
    LabelledWalk(ctx, cut, lo, hi, r, |r|);
    L.SameWalk(r, misled, Read(misled));
    assert r[..|r|] == r;
  }

  /** Nothing that was read arrived when an outsider did. */
  lemma ReadAvoids(mine: seq<Event>, n: nat, o: nat)
    requires DistinctKeys(mine, NewestCreated) && n <= o < |SortBy(mine, NewestTs)|
    ensures var byTs := SortBy(mine, NewestTs);
            var r := SortBy(byTs[..n], NewestCreated);
            |r| == n && forall e :: e in r ==> e in mine && e.createdAt != byTs[o].createdAt
  {
    var byTs := SortBy(mine, NewestTs);
    SortByIsSort(mine, NewestTs);
    DistinctPermutation(mine, byTs, NewestCreated);
    var r := SortBy(byTs[..n], NewestCreated);
    SortByIsSort(byTs[..n], NewestCreated);
    forall e | e in r ensures e in mine && e.createdAt != byTs[o].createdAt {
      assert e in multiset(r) && e in byTs[..n];
      var k :| 0 <= k < n && byTs[k] == e;
      assert NewestCreated(byTs[k]) != NewestCreated(byTs[o]);
      assert e in multiset(byTs);
    }
  }

  lemma MisledWhole(ctx: DetectionContext, cut: int, lo: int, hi: int, i: nat, o: nat)
    requires ValidContext(ctx) && lo <= hi && forall e :: e in ctx.recentEvents ==> lo <= e.createdAt <= hi
    requires L.DistinctArrival(OfItsProvider(ctx))
    requires i < ReadSize(ctx) <= o < |ByTimestamp(ctx)| && ByTimestamp(ctx)[o].createdAt == cut
    requires ByTimestamp(ctx)[i].createdAt < cut
    requires forall j | ReadSize(ctx) <= j < |ByTimestamp(ctx)| :: ByTimestamp(ctx)[j].createdAt <= cut
    ensures L.SequenceCount(Misled(ctx, cut, lo, hi)) < ReadSize(ctx)
  {
    var misled, n := Misled(ctx, cut, lo, hi), ReadSize(ctx);
    MisledHistory(ctx, cut, lo, hi);
    ShapeDecidesRead(ctx, misled);
    var mine, byTs, s := OfItsProvider(misled), ByTimestamp(misled), L.ProviderNewestFirst(misled);
    assert forall j | 0 <= j < |byTs| :: Alike(ByTimestamp(ctx)[j], byTs[j]);
    var p := PlaceInWalk(mine, o);
    SortKeepsMembers(mine, NewestCreated);
    LabelledWalk(ctx, cut, lo, hi, s, p);
    OutsiderIsEarly(mine, byTs, n, o, i, p);
  }

  /** Where the walk meets the event at place o of the read's order; no earlier event arrived with it. */
  lemma PlaceInWalk(mine: seq<Event>, o: nat) returns (p: nat)
    requires DistinctKeys(mine, NewestCreated) && o < |SortBy(mine, NewestTs)|
    ensures var s, e := SortBy(mine, NewestCreated), SortBy(mine, NewestTs)[o];
            && p < |s| == |mine| && s[p] == e
            && forall k | 0 <= k < p :: s[k].createdAt != e.createdAt
  {
    var s, e := SortBy(mine, NewestCreated), SortBy(mine, NewestTs)[o];
    SortKeepsMembers(mine, NewestTs);
    SortKeepsMembers(mine, NewestCreated);
    assert e in s;
    p :| 0 <= p < |s| && s[p] == e;
    SortByIsSort(mine, NewestCreated);
    DistinctPermutation(mine, s, NewestCreated);
    forall k | 0 <= k < p ensures s[k].createdAt != e.createdAt {
      assert NewestCreated(s[k]) != NewestCreated(s[p]);
    }
  }

  /** The exact condition, checked on arrival times and clocks alone: the read is judged like the whole history
      for all streams, outcomes and settings if and only if no event outside it arrived after one inside it. */
  lemma ReadIsSafeIff(ctx: DetectionContext)
    requires ValidContext(ctx) && L.DistinctArrival(OfItsProvider(ctx))
    ensures ReadsNewest(ctx) <==> forall other | SameShape(ctx, other) :: JudgedAlike(other)
  {
    if ReadsNewest(ctx) {
      forall other | SameShape(ctx, other) ensures JudgedAlike(other) {
        ShapeDecidesRead(ctx, other);
        TruncatedHistoryKeepsVerdict(other);
      }
    } else {
      var misled := LateArrivalOvercounts(ctx);
      assert !JudgedAlike(misled);
    }
  }
}
