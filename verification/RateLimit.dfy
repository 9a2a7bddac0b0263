/** The ingest endpoint's fixed-window rate limit and its idempotency claim, on one clock in milliseconds,
    with Redis available. */
module RateLimit {
  import opened Text

  datatype Config = Config(limit: int, windowSetting: int, ttlSeconds: int)

  /** A non-positive window setting is read as one second. */
  function WindowMs(config: Config): (ms: nat)
    ensures ms >= 1000
  {
    1000 * Max(config.windowSetting, 1)
  }

  /** The clock is truncated to seconds, then divided by the window. */
  function Window(config: Config, ms: nat): nat {
    (ms / 1000) / Max(config.windowSetting, 1)
  }

  function Start(config: Config, window: nat): nat {
    window * WindowMs(config)
  }

  lemma DivideTwice(a: nat, b: nat)
    requires b > 0
    ensures (a / 1000) / b == a / (1000 * b)
  {
    var q, r := a / 1000, a % 1000;
    var p, t := q / b, q % b;
    assert a == 1000 * (p * b + t) + r;
    assert a == p * (1000 * b) + (1000 * t + r);
    assert 0 <= 1000 * t + r < 1000 * b;
    Quotient(a, 1000 * b, p, 1000 * t + r);
  }

  lemma Multiple(k: int, d: int)
    requires d >= 0
    ensures k >= 1 ==> k * d >= d
    ensures k <= -1 ==> k * d + d <= 0
  {
  }

  lemma Quotient(a: nat, d: nat, q: nat, r: nat)
    requires d > 0 && a == q * d + r && r < d
    ensures a / d == q
  {
    var k := a / d - q;
    assert a == (a / d) * d + a % d;
    assert k * d == r - a % d;
    Multiple(k, d);
  }

  lemma WithinWindow(config: Config, ms: nat)
    ensures Start(config, Window(config, ms)) <= ms < Start(config, Window(config, ms) + 1)
  {
    var d := WindowMs(config);
    DivideTwice(ms, Max(config.windowSetting, 1));
    assert ms == (ms / d) * d + ms % d;
    assert (ms / d + 1) * d == (ms / d) * d + d;
  }

  lemma MultiplesRise(v: nat, w: nat, d: nat)
    requires v <= w
    ensures v * d <= w * d
    ensures v < w ==> v * d + d <= w * d
  {
    Multiple(w - v, d);
    assert w * d == v * d + (w - v) * d;
  }

  lemma StartsRise(config: Config, v: nat, w: nat)
    requires v <= w
    ensures Start(config, v) <= Start(config, w)
    ensures v < w ==> Start(config, v + 1) <= Start(config, w)
  {
    MultiplesRise(v, w, WindowMs(config));
    if v < w {
      MultiplesRise(v + 1, w, WindowMs(config));
    }
  }

  // ---- the counter ----

  /** A Redis counter; without EXPIRE it does not expire. */
  datatype Counter = Counter(value: nat, expiresAt: Option<nat>)

  predicate Alive(counters: map<nat, Counter>, window: nat, now: nat) {
    window in counters && (counters[window].expiresAt.Some? ==> now < counters[window].expiresAt.value)
  }

  /** One INCR: the clock value that chose the key, and whether the count was within the limit. */
  datatype Entry = Entry(readMs: nat, within: bool)

  datatype Limiter = Limiter(counters: map<nat, Counter>, owed: set<nat>, now: nat, log: seq<Entry>)

  /** Requests on several workers interleave: each reads the clock, INCRs later, and if it saw 1 issues EXPIRE
      later still, or never if the worker dies. */
  datatype Step =
    | Incr(readMs: nat, nowMs: nat)
    | Expire(window: nat, nowMs: nat)

  const IDLE := Limiter(map[], {}, 0, [])

  function IncrValue(s: Limiter, window: nat, now: nat): nat {
    if Alive(s.counters, window, now) then s.counters[window].value + 1 else 1
  }

  function AfterIncr(config: Config, s: Limiter, readMs: nat, nowMs: nat): Limiter {
    var w := Window(config, readMs);
    var value := IncrValue(s, w, nowMs);
    var expiresAt := if Alive(s.counters, w, nowMs) then s.counters[w].expiresAt else None;
    Limiter(s.counters[w := Counter(value, expiresAt)], if value == 1 then s.owed + {w} else s.owed, nowMs,
            s.log + [Entry(readMs, value <= config.limit)])
  }

  function AfterExpire(config: Config, s: Limiter, window: nat, nowMs: nat): Limiter {
    if !Alive(s.counters, window, nowMs) then s.(owed := s.owed - {window}, now := nowMs)
    else s.(counters := s.counters[window := s.counters[window].(expiresAt := Some(nowMs + WindowMs(config)))],
            owed := s.owed - {window}, now := nowMs)
  }

  /** A step that is not possible leaves the state unchanged. */
  function Next(config: Config, s: Limiter, step: Step): Limiter {
    match step
    case Incr(readMs, nowMs) => if readMs <= nowMs && s.now <= nowMs then AfterIncr(config, s, readMs, nowMs) else s
    case Expire(window, nowMs) =>
      if window in s.owed && s.now <= nowMs then AfterExpire(config, s, window, nowMs) else s
  }

  function Run(config: Config, steps: seq<Step>): Limiter {
    if steps == [] then IDLE else Next(config, Run(config, steps[..|steps| - 1]), steps[|steps| - 1])
  }

  /** The INCR reaches Redis before the window that the clock value chose is over. */
  predicate Timely(config: Config, step: Step) {
    step.Incr? ==> step.nowMs < Start(config, Window(config, step.readMs) + 1)
  }

  // ---- per window ----

  function Arrivals(config: Config, log: seq<Entry>, window: nat): nat {
    if log == [] then 0
    else Arrivals(config, log[..|log| - 1], window) + if Window(config, log[|log| - 1].readMs) == window then 1 else 0
  }

  function Accepted(config: Config, log: seq<Entry>, window: nat): nat {
    if log == [] then 0
    else Accepted(config, log[..|log| - 1], window)
         + if Window(config, log[|log| - 1].readMs) == window && log[|log| - 1].within then 1 else 0
  }

  ghost predicate Inv(config: Config, s: Limiter) {
    && (forall w: nat :: Arrivals(config, s.log, w) == if w in s.counters then s.counters[w].value else 0)
    && (forall w: nat :: Accepted(config, s.log, w) == Min(Max(config.limit, 0), Arrivals(config, s.log, w)))
    && (forall w :: w in s.owed ==> Start(config, w) <= s.now)
    && (forall w :: w in s.counters && s.counters[w].expiresAt.Some? ==>
          s.counters[w].expiresAt.value >= Start(config, w + 1))
  }

  /** An INCR finds its window's counter alive, or is the first of its window. */
  predicate FindsLive(config: Config, s: Limiter, step: Step) {
    step.Incr? && step.readMs <= step.nowMs && s.now <= step.nowMs && Window(config, step.readMs) in s.counters
    ==> Alive(s.counters, Window(config, step.readMs), step.nowMs)
  }

  /** No INCR of the run finds its counter expired. */
  predicate AllLive(config: Config, steps: seq<Step>) {
    if steps == [] then true
    else
      && AllLive(config, steps[..|steps| - 1])
      && FindsLive(config, Run(config, steps[..|steps| - 1]), steps[|steps| - 1])
  }

  lemma IncrKeepsInv(config: Config, s: Limiter, readMs: nat, nowMs: nat)
    requires Inv(config, s) && readMs <= nowMs && s.now <= nowMs && FindsLive(config, s, Incr(readMs, nowMs))
    ensures Inv(config, AfterIncr(config, s, readMs, nowMs))
  {
    var s' := AfterIncr(config, s, readMs, nowMs);
    var w := Window(config, readMs);
    WithinWindow(config, readMs);
    assert s'.log[..|s.log|] == s.log;
    assert Arrivals(config, s.log, w) == IncrValue(s, w, nowMs) - 1;
    forall v: nat ensures Arrivals(config, s'.log, v) == if v in s'.counters then s'.counters[v].value else 0 {
      assert Arrivals(config, s.log, v) == if v in s.counters then s.counters[v].value else 0;
    }
    forall v: nat ensures Accepted(config, s'.log, v) == Min(Max(config.limit, 0), Arrivals(config, s'.log, v)) {
      assert Accepted(config, s.log, v) == Min(Max(config.limit, 0), Arrivals(config, s.log, v));
    }
  }

  lemma ExpireKeepsInv(config: Config, s: Limiter, window: nat, nowMs: nat)
    requires Inv(config, s) && window in s.owed && s.now <= nowMs
    ensures Inv(config, AfterExpire(config, s, window, nowMs))
  {
    assert Start(config, window + 1) == Start(config, window) + WindowMs(config);
  }

  lemma {:induction false} RunKeepsInv(config: Config, steps: seq<Step>)
    requires AllLive(config, steps)
    ensures Inv(config, Run(config, steps))
  {
    if steps == [] {
    } else {
      RunKeepsInv(config, steps[..|steps| - 1]);
      var s := Run(config, steps[..|steps| - 1]);
      match steps[|steps| - 1]
      case Incr(readMs, nowMs) =>
        if readMs <= nowMs && s.now <= nowMs {
          IncrKeepsInv(config, s, readMs, nowMs);
        }
      case Expire(window, nowMs) =>
        if window in s.owed && s.now <= nowMs {
          ExpireKeepsInv(config, s, window, nowMs);
        }
    }
  }

  /** While no INCR finds its counter expired, each window accepts exactly its first `limit` arrivals. */
  lemma WindowsAreCapped(config: Config, steps: seq<Step>, window: nat)
    requires AllLive(config, steps)
    ensures var s := Run(config, steps);
            Accepted(config, s.log, window) == Min(Max(config.limit, 0), Arrivals(config, s.log, window))
  {
    RunKeepsInv(config, steps);
  }

  predicate AllTimely(config: Config, steps: seq<Step>) {
    forall i | 0 <= i < |steps| :: Timely(config, steps[i])
  }

  /** A counter cannot expire before its own window ends, so a timely INCR never finds it expired. */
  lemma TimelyFindsLive(config: Config, steps: seq<Step>, step: Step)
    requires AllLive(config, steps) && Timely(config, step)
    ensures FindsLive(config, Run(config, steps), step)
    ensures AllLive(config, steps + [step])
  {
    RunKeepsInv(config, steps);
    assert (steps + [step])[..|steps|] == steps;
  }

  lemma {:induction false} TimelyIsLive(config: Config, steps: seq<Step>)
    requires AllTimely(config, steps)
    ensures AllLive(config, steps)
  {
    if steps == [] {
    } else {
      var front := steps[..|steps| - 1];
      assert AllTimely(config, front) by {
        assert forall i | 0 <= i < |front| :: front[i] == steps[i];
      }
      TimelyIsLive(config, front);
      TimelyFindsLive(config, front, steps[|steps| - 1]);
      assert steps == front + [steps[|steps| - 1]];
    }
  }

  // ---- timeliness is exactly what the cap needs ----

  /** After `steps`, the given INCR leaves its window within the limit. */
  ghost predicate StaysCapped(config: Config, steps: seq<Step>, step: Step)
    requires step.Incr?
  {
    Accepted(config, Run(config, steps + [step]).log, Window(config, step.readMs)) <= Max(config.limit, 0)
  }

  /** `k` requests at the start of a window, the first of which sets the expiry. */
  function Burst(config: Config, window: nat, k: nat): seq<Step>
    requires k >= 1
  {
    var t := Start(config, window);
    if k == 1 then [Incr(t, t), Expire(window, t)] else Burst(config, window, k - 1) + [Incr(t, t)]
  }

  lemma StartsItsWindow(config: Config, window: nat)
    ensures Window(config, Start(config, window)) == window
    ensures Start(config, window + 1) == Start(config, window) + WindowMs(config)
  {
    DivideTwice(Start(config, window), Max(config.windowSetting, 1));
    Quotient(Start(config, window), WindowMs(config), window, 0);
  }

  lemma FirstOfBurst(config: Config, window: nat)
    ensures var t := Start(config, window);
            Run(config, Burst(config, window, 1))
            == Limiter(map[window := Counter(1, Some(t + WindowMs(config)))], {}, t, [Entry(t, 1 <= config.limit)])
  {
    var t := Start(config, window);
    StartsItsWindow(config, window);
    var steps := [Incr(t, t), Expire(window, t)];
    assert steps[..1] == [Incr(t, t)] && steps[..1][..0] == [];
    assert Run(config, steps[..1])
        == Limiter(map[window := Counter(1, None)], {window}, t, [Entry(t, 1 <= config.limit)]);
  }

  /** The state after `k` requests of a burst. */
  ghost predicate Filled(config: Config, s: Limiter, window: nat, k: nat) {
    && s.counters == map[window := Counter(k, Some(Start(config, window) + WindowMs(config)))]
    && s.now == Start(config, window)
    && Accepted(config, s.log, window) == k
  }

  lemma OneMoreInWindow(config: Config, s: Limiter, window: nat, k: nat)
    requires 1 <= k < config.limit && Filled(config, s, window, k)
    ensures Filled(config, AfterIncr(config, s, Start(config, window), Start(config, window)), window, k + 1)
  {
    StartsItsWindow(config, window);
    assert AfterIncr(config, s, s.now, s.now).log[..|s.log|] == s.log;
  }

  lemma {:induction false} BurstFills(config: Config, window: nat, k: nat)
    requires 1 <= k <= config.limit
    ensures Filled(config, Run(config, Burst(config, window, k)), window, k)
  {
    if k == 1 {
      FirstOfBurst(config, window);
      StartsItsWindow(config, window);
      assert [Entry(Start(config, window), true)][..0] == [];
    } else {
      BurstFills(config, window, k - 1);
      OneMoreInWindow(config, Run(config, Burst(config, window, k - 1)), window, k - 1);
      var steps := Burst(config, window, k);
      assert steps[..|steps| - 1] == Burst(config, window, k - 1);
    }
  }

  lemma {:induction false} BurstIsTimely(config: Config, window: nat, k: nat)
    requires k >= 1
    ensures AllTimely(config, Burst(config, window, k))
  {
    StartsItsWindow(config, window);
    if k == 1 {
    } else {
      BurstIsTimely(config, window, k - 1);
    }
  }

  /** Any INCR that reaches Redis after its window is over can be the one that overshoots: fill the window first,
      and it finds the counter expired and starts it again. */
  lemma LateIncrOvershoots(config: Config, step: Step)
    requires config.limit >= 1 && step.Incr? && step.readMs <= step.nowMs && !Timely(config, step)
    ensures var steps := Burst(config, Window(config, step.readMs), config.limit);
            AllTimely(config, steps) && !StaysCapped(config, steps, step)
  {
    var w := Window(config, step.readMs);
    var steps := Burst(config, w, config.limit);
    BurstFills(config, w, config.limit);
    BurstIsTimely(config, w, config.limit);
    StartsItsWindow(config, w);
    var before, after := Run(config, steps), Run(config, steps + [step]);
    assert (steps + [step])[..|steps|] == steps;
    assert after.log[..|before.log|] == before.log;
  }

  lemma {:induction false} NothingWithinZero(config: Config, steps: seq<Step>, window: nat)
    requires config.limit <= 0
    ensures Accepted(config, Run(config, steps).log, window) == 0
  {
    if steps == [] {
    } else {
      NothingWithinZero(config, steps[..|steps| - 1], window);
      var before, after := Run(config, steps[..|steps| - 1]), Run(config, steps);
      if after.log != before.log {
        assert after.log[..|before.log|] == before.log;
      }
    }
  }

  /** An INCR can never break its window's cap, whatever timely requests came before, exactly when it reaches
      Redis before its window is over (or nothing is ever within the limit). */
  lemma CapIffTimely(config: Config, step: Step)
    requires step.Incr? && step.readMs <= step.nowMs
    ensures Timely(config, step) || config.limit <= 0
            <==> forall steps: seq<Step> | AllTimely(config, steps) :: StaysCapped(config, steps, step)
  {
    if config.limit <= 0 {
      forall steps: seq<Step> | AllTimely(config, steps) ensures StaysCapped(config, steps, step) {
        NothingWithinZero(config, steps + [step], Window(config, step.readMs));
      }
    } else if Timely(config, step) {
      forall steps: seq<Step> | AllTimely(config, steps) ensures StaysCapped(config, steps, step) {
        TimelyIsLive(config, steps);
        TimelyFindsLive(config, steps, step);
        WindowsAreCapped(config, steps + [step], Window(config, step.readMs));
      }
    } else {
      LateIncrOvershoots(config, step);
    }
  }

  // ---- any interval of one window length ----

  function AcceptedBetween(log: seq<Entry>, from: nat, to: nat): nat {
    if log == [] then 0
    else AcceptedBetween(log[..|log| - 1], from, to)
         + if from <= log[|log| - 1].readMs < to && log[|log| - 1].within then 1 else 0
  }

  lemma {:induction false} SpanTouchesTwoWindows(config: Config, log: seq<Entry>, from: nat)
    ensures AcceptedBetween(log, from, from + WindowMs(config))
            <= Accepted(config, log, Window(config, from)) + Accepted(config, log, Window(config, from) + 1)
  {
    if log == [] {
    } else {
      SpanTouchesTwoWindows(config, log[..|log| - 1], from);
      var ms, w := log[|log| - 1].readMs, Window(config, from);
      if from <= ms < from + WindowMs(config) {
        WithinWindow(config, from);
        WithinWindow(config, ms);
        assert Start(config, w + 2) == Start(config, w + 1) + WindowMs(config);
        if Window(config, ms) < w {
          StartsRise(config, Window(config, ms), w);
        } else if Window(config, ms) >= w + 2 {
          StartsRise(config, w + 2, Window(config, ms));
        }
      }
    }
  }

  /** Over any interval of one window length at most twice the limit gets through. */
  lemma AnySpanIsCapped(config: Config, steps: seq<Step>, from: nat)
    requires AllLive(config, steps)
    ensures AcceptedBetween(Run(config, steps).log, from, from + WindowMs(config)) <= 2 * Max(config.limit, 0)
  {
    var log := Run(config, steps).log;
    SpanTouchesTwoWindows(config, log, from);
    WindowsAreCapped(config, steps, Window(config, from));
    WindowsAreCapped(config, steps, Window(config, from) + 1);
  }

  // ---- the endpoint ----

  /** "accepted" is answered both after ingesting and to a duplicate. */
  datatype Reply = Ingested | Duplicate | TooMany

  datatype Ingest = Ingest(key: Option<string>, at: nat)

  /** One ingest key's Redis keys, and a history: the INCRs and the events ingested. */
  datatype Server = Server(
    claims: map<string, nat>, counters: map<nat, Counter>, now: nat, log: seq<Entry>, ingested: seq<Ingest>)

  const FRESH := Server(map[], map[], 0, [], [])

  predicate ValidConfig(config: Config) {
    config.ttlSeconds >= 1
  }

  function LimiterOf(s: Server): Limiter {
    Limiter(s.counters, {}, s.now, s.log)
  }

  predicate Claims(key: Option<string>) {
    key.Some? && key.value != ""
  }

  predicate HeldAt(claims: map<string, nat>, key: string, now: nat) {
    key in claims && now < claims[key]
  }

  predicate Held(s: Server, key: Option<string>, now: nat) {
    Claims(key) && HeldAt(s.claims, key.value, now)
  }

  function Limit(config: Config, s: Limiter, now: nat): Limiter {
    var w := Window(config, now);
    var counted := AfterIncr(config, s, now, now);
    if IncrValue(s, w, now) == 1 then AfterExpire(config, counted, w, now) else counted
  }

  /** The claim comes before the rate limit and is not given back by a 429. */
  function Handle(config: Config, s: Server, key: Option<string>, now: nat): (Server, Reply)
    requires ValidConfig(config)
  {
    if Held(s, key, now) then (s.(now := now), Duplicate)
    else
      var claims := if Claims(key) then s.claims[key.value := now + 1000 * config.ttlSeconds] else s.claims;
      var limiter := Limit(config, LimiterOf(s), now);
      var within := IncrValue(LimiterOf(s), Window(config, now), now) <= config.limit;
      var ingested := if within then s.ingested + [Ingest(key, now)] else s.ingested;
      (Server(claims, limiter.counters, now, limiter.log, ingested), if within then Ingested else TooMany)
  }

  class IngestEndpoint {
    const config: Config
    var claims: map<string, nat>
    var counters: map<nat, Counter>
    ghost var now: nat
    ghost var log: seq<Entry>
    ghost var ingested: seq<Ingest>

    ghost function State(): Server
      reads this
    {
      Server(claims, counters, now, log, ingested)
    }

    constructor (config: Config)
      ensures this.config == config && State() == FRESH
    {
      this.config, claims, counters := config, map[], map[];
      now, log, ingested := 0, [], [];
    }

    /** A live claim is never overwritten, and a winner holds the key until its time to live is over. */
    method SetNxEx(key: string, nowMs: nat) returns (won: bool)
      requires ValidConfig(config)
      modifies this`claims
      ensures won <==> !HeldAt(old(claims), key, nowMs)
      ensures HeldAt(claims, key, nowMs)
      ensures !won ==> claims == old(claims)
      ensures won ==> claims == old(claims)[key := claims[key]]
      ensures won ==> claims[key] == nowMs + 1000 * config.ttlSeconds
                      && forall t: nat :: HeldAt(claims, key, t) <==> t < nowMs + 1000 * config.ttlSeconds
    {
      won := !(key in claims && nowMs < claims[key]);
      if won {
        claims := claims[key := nowMs + 1000 * config.ttlSeconds];
      }
    }

    /** INCR, and EXPIRE when the counter is new. */
    method CountRequest(nowMs: nat) returns (value: nat)
      modifies this`counters, this`now, this`log
      ensures Limiter(counters, {}, now, log) == Limit(config, Limiter(old(counters), {}, old(now), old(log)), nowMs)
      ensures value == IncrValue(Limiter(old(counters), {}, old(now), old(log)), Window(config, nowMs), nowMs)
    {
      var window := (nowMs / 1000) / Max(config.windowSetting, 1);
      value := 1;
      var expiresAt := None;
      if window in counters && (counters[window].expiresAt.None? || nowMs < counters[window].expiresAt.value) {
        value := counters[window].value + 1;
        expiresAt := counters[window].expiresAt;
      }
      counters := counters[window := Counter(value, expiresAt)];
      if value == 1 {
        counters := counters[window := Counter(value, Some(nowMs + 1000 * Max(config.windowSetting, 1)))];
      }
      now, log := nowMs, log + [Entry(nowMs, value <= config.limit)];
    }

    method IngestEvent(key: Option<string>, nowMs: nat) returns (reply: Reply)
      requires ValidConfig(config)
      modifies this
      ensures (State(), reply) == Handle(config, old(State()), key, nowMs)
    {
      if Claims(key) {
        var accepted := SetNxEx(key.value, nowMs);
        if !accepted {
          now := nowMs;
          return Duplicate;
        }
      }
      var value := CountRequest(nowMs);
      if value > config.limit {
        return TooMany;
      }
      ingested := ingested + [Ingest(key, nowMs)];
      return Ingested;
    }
  }

  // ---- runs of the endpoint ----

  datatype Request = Request(key: Option<string>, at: nat)

  predicate Ascending(requests: seq<Request>) {
    forall i, j | 0 <= i <= j < |requests| :: requests[i].at <= requests[j].at
  }

  function Serve(config: Config, requests: seq<Request>): Server
    requires ValidConfig(config)
  {
    if requests == [] then FRESH
    else
      var last := requests[|requests| - 1];
      Handle(config, Serve(config, requests[..|requests| - 1]), last.key, last.at).0
  }

  function IngestedBetween(ingested: seq<Ingest>, from: nat, to: nat): nat {
    if ingested == [] then 0
    else
      var last := ingested[|ingested| - 1];
      IngestedBetween(ingested[..|ingested| - 1], from, to) + if from <= last.at < to then 1 else 0
  }

  predicate Spaced(config: Config, a: Ingest, b: Ingest) {
    Claims(a.key) && a.key == b.key ==> a.at + 1000 * config.ttlSeconds <= b.at
  }

  /** Every ingest under a key still covered by its claim is the one that the claim allowed. */
  ghost predicate ClaimsCover(config: Config, s: Server) {
    && (forall i | 0 <= i < |s.ingested| :: s.ingested[i].at <= s.now)
    && (forall i | 0 <= i < |s.ingested| && Claims(s.ingested[i].key) ::
          var key := s.ingested[i].key.value;
          key in s.claims && s.ingested[i].at + 1000 * config.ttlSeconds <= s.claims[key])
    && (forall i, j | 0 <= i < j < |s.ingested| :: Spaced(config, s.ingested[i], s.ingested[j]))
  }

  /** The ingest that a key's live claim allowed. */
  ghost predicate Backed(config: Config, s: Server, key: string) {
    key in s.claims && exists i ::
      0 <= i < |s.ingested| && s.ingested[i].key == Some(key)
          && s.ingested[i].at + 1000 * config.ttlSeconds == s.claims[key]
  }

  lemma HandleLimits(config: Config, s: Server, key: Option<string>, now: nat)
    requires ValidConfig(config) && s.now <= now && Inv(config, LimiterOf(s))
    ensures Inv(config, LimiterOf(Handle(config, s, key, now).0))
  {
    if !Held(s, key, now) {
      WithinWindow(config, now);
      IncrKeepsInv(config, LimiterOf(s), now, now);
      var counted := AfterIncr(config, LimiterOf(s), now, now);
      if IncrValue(LimiterOf(s), Window(config, now), now) == 1 {
        ExpireKeepsInv(config, counted, Window(config, now), now);
      }
    }
  }

  lemma HandleCovers(config: Config, s: Server, key: Option<string>, now: nat)
    requires ValidConfig(config) && s.now <= now && ClaimsCover(config, s)
    ensures ClaimsCover(config, Handle(config, s, key, now).0)
  {
    var s' := Handle(config, s, key, now).0;
    if s'.ingested != s.ingested {
      assert s'.ingested == s.ingested + [Ingest(key, now)];
    }
  }

  lemma {:induction false} ServeKeepsInv(config: Config, requests: seq<Request>)
    requires ValidConfig(config) && Ascending(requests)
    ensures Inv(config, LimiterOf(Serve(config, requests))) && ClaimsCover(config, Serve(config, requests))
    ensures requests != [] ==> Serve(config, requests).now == requests[|requests| - 1].at
    ensures requests == [] ==> Serve(config, requests).now == 0
  {
    if requests == [] {
    } else {
      var last := requests[|requests| - 1];
      ServeKeepsInv(config, requests[..|requests| - 1]);
      HandleLimits(config, Serve(config, requests[..|requests| - 1]), last.key, last.at);
      HandleCovers(config, Serve(config, requests[..|requests| - 1]), last.key, last.at);
    }
  }

  lemma HandleAppends(config: Config, s: Server, key: Option<string>, now: nat)
    requires ValidConfig(config) && !Held(s, key, now)
    ensures var (s', reply) := Handle(config, s, key, now);
            && s'.log == s.log + [Entry(now, reply.Ingested?)]
            && s'.ingested == if reply.Ingested? then s.ingested + [Ingest(key, now)] else s.ingested
  {
  }

  lemma CountsAfterAppend(log: seq<Entry>, ingested: seq<Ingest>, key: Option<string>, at: nat, within: bool,
                          from: nat, to: nat)
    ensures AcceptedBetween(log + [Entry(at, within)], from, to)
            == AcceptedBetween(log, from, to) + if within && from <= at < to then 1 else 0
    ensures IngestedBetween(ingested + [Ingest(key, at)], from, to)
            == IngestedBetween(ingested, from, to) + if from <= at < to then 1 else 0
  {
    assert (log + [Entry(at, within)])[..|log|] == log;
    assert (ingested + [Ingest(key, at)])[..|ingested|] == ingested;
  }

  lemma {:induction false} IngestsAreLogged(config: Config, requests: seq<Request>, from: nat, to: nat)
    requires ValidConfig(config)
    ensures var s := Serve(config, requests); IngestedBetween(s.ingested, from, to) == AcceptedBetween(s.log, from, to)
  {
    if requests == [] {
    } else {
      var last := requests[|requests| - 1];
      var s := Serve(config, requests[..|requests| - 1]);
      IngestsAreLogged(config, requests[..|requests| - 1], from, to);
      if !Held(s, last.key, last.at) {
        HandleAppends(config, s, last.key, last.at);
        CountsAfterAppend(s.log, s.ingested, last.key, last.at, Handle(config, s, last.key, last.at).1.Ingested?,
            from, to);
      }
    }
  }

  /** What reaches ingest: at most twice the limit in any interval of one window length, and under one
      idempotency key never twice within the claim's lifetime. */
  lemma IngestIsBounded(config: Config, requests: seq<Request>, from: nat)
    requires ValidConfig(config) && Ascending(requests)
    ensures var s := Serve(config, requests);
            && IngestedBetween(s.ingested, from, from + WindowMs(config)) <= 2 * Max(config.limit, 0)
            && (forall i, j | 0 <= i < j < |s.ingested| && Claims(s.ingested[i].key)
                && s.ingested[i].key == s.ingested[j].key ::
                  s.ingested[i].at + 1000 * config.ttlSeconds <= s.ingested[j].at)
  {
    var s := Serve(config, requests);
    ServeKeepsInv(config, requests);
    IngestsAreLogged(config, requests, from, from + WindowMs(config));
    SpanTouchesTwoWindows(config, s.log, from);
    assert Accepted(config, s.log, Window(config, from)) <= Max(config.limit, 0);
    assert Accepted(config, s.log, Window(config, from) + 1) <= Max(config.limit, 0);
    forall i, j | 0 <= i < j < |s.ingested| && Claims(s.ingested[i].key) && s.ingested[i].key == s.ingested[j].key
      ensures s.ingested[i].at + 1000 * config.ttlSeconds <= s.ingested[j].at {
      assert Spaced(config, s.ingested[i], s.ingested[j]);
    }
  }

  // ---- what a duplicate's "accepted" is worth ----

  /** Request i takes the claim of its key. */
  predicate Takes(config: Config, requests: seq<Request>, i: nat)
    requires ValidConfig(config) && i < |requests|
  {
    Claims(requests[i].key) && !Held(Serve(config, requests[..i]), requests[i].key, requests[i].at)
  }

  /** Request i is the last one that took the claim of `key`. */
  predicate LastClaim(config: Config, requests: seq<Request>, key: string, i: nat)
    requires ValidConfig(config)
  {
    && i < |requests| && requests[i].key == Some(key) && Takes(config, requests, i)
    && forall j | i < j < |requests| && requests[j].key == Some(key) :: !Takes(config, requests, j)
  }

  lemma LastClaimOfFront(config: Config, requests: seq<Request>, key: string, i: nat)
    requires ValidConfig(config) && i + 1 < |requests| && requests[i].key == Some(key)
    ensures var m := |requests| - 1;
            LastClaim(config, requests, key, i)
            <==> && LastClaim(config, requests[..m], key, i)
                 && (requests[m].key == Some(key) ==> !Takes(config, requests, m))
  {
    var m := |requests| - 1;
    forall j | 0 <= j < m ensures requests[..m][j] == requests[j] && requests[..m][..j] == requests[..j] {
    }
  }

  lemma {:induction false} FindLastClaim(config: Config, requests: seq<Request>, key: string) returns (i: nat)
    requires ValidConfig(config) && key != "" && key in Serve(config, requests).claims
    ensures LastClaim(config, requests, key, i)
  {
    var m := |requests| - 1;
    if requests[m].key == Some(key) && Takes(config, requests, m) {
      i := m;
    } else {
      i := FindLastClaim(config, requests[..m], key);
      LastClaimOfFront(config, requests, key, i);
    }
  }

  lemma OthersKeepClaim(config: Config, s: Server, key: Option<string>, now: nat, claimed: string)
    requires ValidConfig(config) && s.now <= now && claimed in s.claims && (key == Some(claimed) ==> Held(s, key, now))
    ensures var s' := Handle(config, s, key, now).0;
            && claimed in s'.claims && s'.claims[claimed] == s.claims[claimed]
            && (Backed(config, s', claimed) <==> Backed(config, s, claimed))
  {
    var (s', reply) := Handle(config, s, key, now);
    if !Held(s, key, now) {
      HandleAppends(config, s, key, now);
      forall i | 0 <= i < |s.ingested| ensures s'.ingested[i] == s.ingested[i] {
      }
    }
  }

  lemma TakerIsBacked(config: Config, s: Server, key: string, now: nat)
    requires ValidConfig(config) && s.now <= now && key != "" && !Held(s, Some(key), now)
    requires ClaimsCover(config, s) && Inv(config, LimiterOf(s))
    ensures var (s', reply) := Handle(config, s, Some(key), now);
            && key in s'.claims && s'.claims[key] == now + 1000 * config.ttlSeconds
            && (reply.Ingested? <==> Arrivals(config, s.log, Window(config, now)) < config.limit)
            && (Backed(config, s', key) <==> reply.Ingested?)
  {
    var (s', reply) := Handle(config, s, Some(key), now);
    WithinWindow(config, now);
    HandleAppends(config, s, Some(key), now);
    if reply.Ingested? {
      assert s'.ingested[|s.ingested|] == Ingest(Some(key), now);
    }
  }

  /** The last claim stands for its time to live, and it is backed by an ingest exactly when its own request
      found its window below the limit. */
  lemma {:induction false} ClaimStands(config: Config, requests: seq<Request>, key: string, i: nat)
    requires ValidConfig(config) && Ascending(requests) && LastClaim(config, requests, key, i)
    ensures var s := Serve(config, requests);
            && key in s.claims && s.claims[key] == requests[i].at + 1000 * config.ttlSeconds
            && (Backed(config, s, key)
                <==> Arrivals(config, Serve(config, requests[..i]).log, Window(config, requests[i].at)) < config.limit)
    decreases |requests|
  {
    var m := |requests| - 1;
    var s := Serve(config, requests[..m]);
    ServeKeepsInv(config, requests[..m]);
    if i == m {
      TakerIsBacked(config, s, key, requests[m].at);
    } else {
      LastClaimOfFront(config, requests, key, i);
      assert requests[..m][..i] == requests[..i] && requests[..m][i] == requests[i];
      ClaimStands(config, requests[..m], key, i);
      OthersKeepClaim(config, s, requests[m].key, requests[m].at, key);
    }
  }

  /** Requests under a key are answered as duplicates for the time to live of its last claim, and no longer. */
  lemma ClaimHolds(config: Config, requests: seq<Request>, key: string, i: nat, now: nat)
    requires ValidConfig(config) && Ascending(requests) && LastClaim(config, requests, key, i)
    ensures Handle(config, Serve(config, requests), Some(key), now).1 == Duplicate
            <==> now < requests[i].at + 1000 * config.ttlSeconds
  {
    ClaimStands(config, requests, key, i);
  }

  /** A duplicate's "accepted" is true, in that the live claim's request was ingested, exactly when that request
      found its window below the limit. */
  lemma DuplicateIsBackedIff(config: Config, requests: seq<Request>, key: string, now: nat) returns (i: nat)
    requires ValidConfig(config) && Ascending(requests)
    requires Handle(config, Serve(config, requests), Some(key), now).1 == Duplicate
    ensures LastClaim(config, requests, key, i)
    ensures Backed(config, Serve(config, requests), key)
            <==> Arrivals(config, Serve(config, requests[..i]).log, Window(config, requests[i].at)) < config.limit
  {
    i := FindLastClaim(config, requests, key);
    ClaimStands(config, requests, key, i);
  }

  /** A request refused with 429 that is retried under its key is answered "accepted" and never ingested,
      as long as the claim of the refused request lives. */
  lemma RefusedRetryIsLost(config: Config, requests: seq<Request>, key: string, now: nat, later: nat)
    requires ValidConfig(config) && Ascending(requests + [Request(Some(key), now)])
    requires Handle(config, Serve(config, requests), Some(key), now).1 == TooMany
    requires now <= later < now + 1000 * config.ttlSeconds && key != ""
    ensures var refused := Serve(config, requests + [Request(Some(key), now)]);
            && Handle(config, refused, Some(key), later).1 == Duplicate
            && !Backed(config, refused, key)
            && Handle(config, refused, Some(key), later).0.ingested == Serve(config, requests).ingested
  {
    var all := requests + [Request(Some(key), now)];
    assert all[..|requests|] == requests;
    assert Ascending(requests) by {
      assert forall k | 0 <= k < |requests| :: requests[k] == all[k];
    }
    ServeKeepsInv(config, requests);
    assert Serve(config, requests).now <= now by {
      assert requests != [] ==> all[|requests| - 1].at <= all[|requests|].at;
    }
    TakerIsBacked(config, Serve(config, requests), key, now);
    HandleAppends(config, Serve(config, requests), Some(key), now);
  }
}
