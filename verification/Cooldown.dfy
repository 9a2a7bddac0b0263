/** The cooldown protocol between the backend, its cooldown store and any number of caching engines. */
module Cooldown {
  import opened Text
  import opened ProtectDecision
  import opened ProtectEngine

  // ---- the backend ----

  /** A stored cooldown end, and when Redis drops the key. */
  datatype Entry = Entry(untilMs: int, expiresAtMs: int)

  /** Cooldowns by provider, for one project. */
  type Store = map<string, Entry>

  function GetCooldown(store: Store, provider: string, nowMs: int): Option<int> {
    if provider in store && nowMs < store[provider].expiresAtMs && store[provider].untilMs > 0
    then Some(store[provider].untilMs)
    else None
  }

  function SetCooldown(store: Store, provider: string, untilMs: int, cooldownSeconds: int, atMs: int): Store {
    store[provider := Entry(untilMs, atMs + Max(cooldownSeconds, 1) * 1000)]
  }

  datatype Backend = Backend(project: Project, settings: Settings)

  predicate ValidBackend(b: Backend) {
    ValidLadder(b.settings.ladder)
  }

  /** One preflight.  The engine looks at its cache at `askedMs`; if it has to ask, the backend decides at
      `servedMs`, writes a cooldown at `storedMs`, and the reply arrives at `receivedMs`. */
  datatype Preflight = Preflight(
    engine: nat, provider: string, counters: Counters, request: Request,
    askedMs: int, servedMs: int, storedMs: int, receivedMs: int)

  predicate ValidTimes(p: Preflight, previousMs: int) {
    0 <= previousMs <= p.askedMs <= p.servedMs <= p.storedMs <= p.receivedMs
  }

  function Decide(b: Backend, store: Store, p: Preflight, atMs: int): Decision
    requires ValidBackend(b)
  {
    Evaluate(b.project, b.settings, p.counters, p.request, GetCooldown(store, p.provider, atMs), atMs)
  }

  /** The endpoint persists a cooldown after a cap breach only. */
  function AfterDecision(b: Backend, store: Store, p: Preflight, decision: Decision): Store {
    if b.project.protectEnabled && decision.Block? && decision.reason != CooldownActive
    then SetCooldown(store, p.provider, decision.blockedUntilMs, decision.retryAfterSeconds, p.storedMs)
    else store
  }

  function ReasonText(reason: Reason): string {
    match reason
    case TokCapBreach => "tok_cap_breach"
    case ReqCapBreach => "req_cap_breach"
    case CooldownActive => "cooldown_active"
  }

  function Wire(b: Backend, decision: Decision): Payload {
    var failMode := if b.project.failClosed then "closed" else "open";
    var timeout := Whole(b.settings.decisionTimeoutMs);
    var clampOn := Some(b.project.applyClamp);
    match decision
    case Allow => Payload("allow", Some("ok"), failMode, timeout, None, Missing, clampOn, Missing)
    case Clamp(r) => Payload("clamp", Some("token_clamp"), failMode, timeout, None, Missing, clampOn, Whole(r))
    case Block(reason, until, retry) =>
      Payload("block", Some(ReasonText(reason)), failMode, timeout, Some(until), Whole(retry), clampOn, Missing)
  }

  // ---- engines with a cache, and the engine that always asks ----

  /** The part of an answer that callers act on: everything but the clamp-enabled flag, which a locally
      answered block does not carry. */
  function Essence(r: Evaluation): Evaluation {
    r.(applyClamp := None)
  }

  datatype World = World(engines: map<nat, EngineState>, store: Store)

  function EngineOf(w: World, id: nat): EngineState {
    if id in w.engines then w.engines[id] else EngineState(None, None, "open", 300.0)
  }

  /** When the answer is decided: at once from the cache, or when the backend serves it. */
  function AnswerMs(w: World, p: Preflight): int {
    if LocalHit(EngineOf(w, p.engine), p.askedMs) then p.askedMs else p.servedMs
  }

  function CachedAnswer(b: Backend, w: World, p: Preflight): Evaluation
    requires ValidBackend(b)
  {
    var e := EngineOf(w, p.engine);
    if LocalHit(e, p.askedMs) then PyLocalBlock(e, p.askedMs)
    else PyRead(Wire(b, Decide(b, w.store, p, p.servedMs)))
  }

  function CachedStep(b: Backend, w: World, p: Preflight): World
    requires ValidBackend(b)
  {
    var e := EngineOf(w, p.engine);
    if LocalHit(e, p.askedMs) then w
    else
      var decision := Decide(b, w.store, p, p.servedMs);
      World(w.engines[p.engine := PyLearn(e, Wire(b, decision), p.receivedMs)], AfterDecision(b, w.store, p, decision))
  }

  function DirectAnswer(b: Backend, store: Store, p: Preflight, atMs: int): Evaluation
    requires ValidBackend(b)
  {
    PyRead(Wire(b, Decide(b, store, p, atMs)))
  }

  function DirectStep(b: Backend, store: Store, p: Preflight, atMs: int): Store
    requires ValidBackend(b)
  {
    AfterDecision(b, store, p, Decide(b, store, p, atMs))
  }

  // ---- the simulation ----

  /** Cooldown ends are positive, their keys outlive them, and only an enabled project has any. */
  predicate ValidStore(b: Backend, store: Store) {
    forall provider :: provider in store ==>
      b.project.protectEnabled && 0 < store[provider].untilMs <= store[provider].expiresAtMs
  }

  /** A cached end that still lies ahead is the end the backend has stored for the engine's provider. */
  ghost predicate InSync(b: Backend, w: World, nowMs: int, providerOf: nat -> string) {
    && ValidStore(b, w.store)
    && forall id :: id in w.engines ==> EngineInSync(w, id, nowMs, providerOf(id))
  }

  predicate EngineInSync(w: World, id: nat, nowMs: int, provider: string)
    requires id in w.engines
  {
    var e := w.engines[id];
    && (e.cooldownUntilMs.Some? ==> e.cooldownReason == Some("cooldown_active"))
    && (LocalHit(e, nowMs) ==> provider in w.store && w.store[provider].untilMs == e.cooldownUntilMs.value)
  }

  /** A cache hit answers exactly what the backend would have answered then. */
  lemma HitRefines(b: Backend, w: World, p: Preflight, nowMs: int, providerOf: nat -> string)
    requires ValidBackend(b) && InSync(b, w, nowMs, providerOf) && nowMs <= p.askedMs
            && p.provider == providerOf(p.engine)
    requires LocalHit(EngineOf(w, p.engine), p.askedMs)
    ensures Essence(CachedAnswer(b, w, p)) == Essence(DirectAnswer(b, w.store, p, p.askedMs))
    ensures DirectStep(b, w.store, p, p.askedMs) == w.store
  {
    var e := EngineOf(w, p.engine);
    var until := e.cooldownUntilMs.value;
    assert EngineInSync(w, p.engine, nowMs, p.provider);
    assert GetCooldown(w.store, p.provider, p.askedMs) == Some(until);
    RoundingAgrees(until - p.askedMs);
  }

  /** Cached or not, one answer and the state it leaves are those of asking. */
  lemma StepRefines(b: Backend, w: World, p: Preflight, previousMs: int, providerOf: nat -> string)
    requires ValidBackend(b) && InSync(b, w, previousMs, providerOf) && ValidTimes(p, previousMs)
            && p.provider == providerOf(p.engine)
    ensures Essence(CachedAnswer(b, w, p)) == Essence(DirectAnswer(b, w.store, p, AnswerMs(w, p)))
    ensures CachedStep(b, w, p).store == DirectStep(b, w.store, p, AnswerMs(w, p))
  {
    if LocalHit(EngineOf(w, p.engine), p.askedMs) {
      assert p.engine in w.engines;
      HitRefines(b, w, p, previousMs, providerOf);
    }
  }

  lemma StepKeepsStore(b: Backend, w: World, p: Preflight, previousMs: int)
    requires ValidBackend(b) && ValidStore(b, w.store) && ValidTimes(p, previousMs)
    ensures ValidStore(b, CachedStep(b, w, p).store)
  {
    if !LocalHit(EngineOf(w, p.engine), p.askedMs) {
      CapBlockTimes(b, w.store, p);
    }
  }

  lemma CapBlockTimes(b: Backend, store: Store, p: Preflight)
    requires ValidBackend(b)
    ensures var decision := Decide(b, store, p, p.servedMs);
            decision.Block? && decision.reason != CooldownActive ==>
              && b.project.protectEnabled
              && decision.blockedUntilMs == p.servedMs + Max(b.settings.cooldownSeconds, 1) * 1000
              && decision.retryAfterSeconds == Max(b.settings.cooldownSeconds, 1)
              && !(GetCooldown(store, p.provider, p.servedMs).Some?
                  && p.servedMs < GetCooldown(store, p.provider, p.servedMs).value)
  {
    var seconds := Max(b.settings.cooldownSeconds, 1);
    assert CeilSeconds(seconds * 1000) == seconds;
  }

  /** Every preflight, by any engine on its own provider, keeps the caches in sync with the store. */
  lemma StepKeepsSync(b: Backend, w: World, p: Preflight, previousMs: int, providerOf: nat -> string)
    requires ValidBackend(b) && InSync(b, w, previousMs, providerOf) && ValidTimes(p, previousMs)
    requires p.provider == providerOf(p.engine)
    ensures InSync(b, CachedStep(b, w, p), p.receivedMs, providerOf)
  {
    var w' := CachedStep(b, w, p);
    var decision := Decide(b, w.store, p, p.servedMs);
    StepKeepsStore(b, w, p, previousMs);
    CapBlockTimes(b, w.store, p);
    forall id | id in w'.engines ensures EngineInSync(w', id, p.receivedMs, providerOf(id)) {
      if id in w.engines {
        assert EngineInSync(w, id, previousMs, providerOf(id));
      }
      if id != p.engine || LocalHit(EngineOf(w, p.engine), p.askedMs) {
        OthersKeepSync(b, w, p, previousMs, providerOf, id);
      }
    }
  }

  lemma OthersKeepSync(b: Backend, w: World, p: Preflight, previousMs: int, providerOf: nat -> string, id: nat)
    requires ValidBackend(b) && InSync(b, w, previousMs, providerOf) && ValidTimes(p, previousMs)
    requires p.provider == providerOf(p.engine) && id in w.engines
    requires id != p.engine || LocalHit(EngineOf(w, p.engine), p.askedMs)
    ensures EngineInSync(CachedStep(b, w, p), id, p.receivedMs, providerOf(id))
  {
    assert EngineInSync(w, id, previousMs, providerOf(id));
    CapBlockTimes(b, w.store, p);
    if LocalHit(w.engines[id], p.receivedMs) && providerOf(id) == p.provider {
      assert GetCooldown(w.store, p.provider, p.servedMs) == w.engines[id].cooldownUntilMs;
    }
  }

  // ---- runs ----

  /** The answers of the caching engines over a run, and the world they leave. */
  function CachedRun(b: Backend, w: World, run: seq<Preflight>): (seq<Evaluation>, World)
    requires ValidBackend(b)
    decreases |run|
  {
    if run == [] then ([], w)
    else
      var (answers, end) := CachedRun(b, CachedStep(b, w, run[0]), run[1..]);
      ([CachedAnswer(b, w, run[0])] + answers, end)
  }

  function AnswerTimes(b: Backend, w: World, run: seq<Preflight>): (times: seq<int>)
    requires ValidBackend(b)
    ensures |times| == |run|
    decreases |run|
  {
    if run == [] then [] else [AnswerMs(w, run[0])] + AnswerTimes(b, CachedStep(b, w, run[0]), run[1..])
  }

  /** The answers of an engine without a cache that asks the backend every time. */
  function DirectRun(b: Backend, store: Store, run: seq<Preflight>, times: seq<int>): (seq<Evaluation>, Store)
    requires ValidBackend(b) && |times| == |run|
    decreases |run|
  {
    if run == [] then ([], store)
    else
      var (answers, end) := DirectRun(b, DirectStep(b, store, run[0], times[0]), run[1..], times[1..]);
      ([DirectAnswer(b, store, run[0], times[0])] + answers, end)
  }

  ghost predicate Sequential(run: seq<Preflight>, previousMs: int, providerOf: nat -> string) {
    run != [] ==>
      && ValidTimes(run[0], previousMs) && run[0].provider == providerOf(run[0].engine)
      && Sequential(run[1..], run[0].receivedMs, providerOf)
  }

  ghost predicate SameEssence(a: seq<Evaluation>, b: seq<Evaluation>) {
    |a| == |b| && forall i | 0 <= i < |a| :: Essence(a[i]) == Essence(b[i])
  }

  /** The cooldown cache refines the backend: over every sequential run of any number of engines, each
      on one provider, the cached answers are those of always asking, and so is the stored state. */
  lemma {:induction false} CacheRefinesBackend(b: Backend, w: World, run: seq<Preflight>, previousMs: int,
                                               providerOf: nat -> string)
    requires ValidBackend(b) && InSync(b, w, previousMs, providerOf) && Sequential(run, previousMs, providerOf)
    ensures var direct := DirectRun(b, w.store, run, AnswerTimes(b, w, run));
            && SameEssence(CachedRun(b, w, run).0, direct.0)
            && CachedRun(b, w, run).1.store == direct.1
    decreases |run|
  {
    if run == [] {
    } else {
      var p := run[0];
      var times := AnswerTimes(b, w, run);
      assert times[0] == AnswerMs(w, p) && times[1..] == AnswerTimes(b, CachedStep(b, w, p), run[1..]);
      StepRefines(b, w, p, previousMs, providerOf);
      StepKeepsSync(b, w, p, previousMs, providerOf);
      CacheRefinesBackend(b, CachedStep(b, w, p), run[1..], p.receivedMs, providerOf);
    }
  }

  /** Fresh engines and an empty store are in sync, so the refinement holds from the start. */
  lemma FreshIsInSync(b: Backend, providerOf: nat -> string)
    ensures InSync(b, World(map[], map[]), 0, providerOf)
  {
  }

  /** Retries during a cooldown never move its end. */
  lemma {:induction false} RetriesKeepTheEnd(b: Backend, w: World, run: seq<Preflight>, previousMs: int,
                                             providerOf: nat -> string,
                                             provider: string)
    requires ValidBackend(b) && InSync(b, w, previousMs, providerOf) && Sequential(run, previousMs, providerOf)
    requires provider in w.store && forall i | 0 <= i < |run| :: run[i].servedMs < w.store[provider].untilMs
    ensures provider in CachedRun(b, w, run).1.store && CachedRun(b, w, run).1.store[provider] == w.store[provider]
    decreases |run|
  {
    if run == [] {
    } else {
      var p := run[0];
      assert p.servedMs < w.store[provider].untilMs;
      StepKeepsSync(b, w, p, previousMs, providerOf);
      CapBlockTimes(b, w.store, p);
      var w' := CachedStep(b, w, p);
      assert provider in w'.store && w'.store[provider] == w.store[provider];
      forall i | 0 <= i < |run[1..]| ensures run[1..][i].servedMs < w'.store[provider].untilMs {
        assert run[1..][i] == run[i+1];
      }
      RetriesKeepTheEnd(b, w', run[1..], p.receivedMs, providerOf, provider);
    }
  }

  // ---- several providers on one engine ----

  /** The cache is not keyed by provider.  A hit for any provider is right exactly when the backend holds
      the cached end for that very provider. */
  lemma HitIsRightIff(b: Backend, w: World, p: Preflight)
    requires ValidBackend(b) && b.project.protectEnabled && ValidStore(b, w.store)
    requires EngineOf(w, p.engine).cooldownReason == Some("cooldown_active") && 0 <= p.askedMs
    requires LocalHit(EngineOf(w, p.engine), p.askedMs)
    ensures Essence(CachedAnswer(b, w, p)) == Essence(DirectAnswer(b, w.store, p, p.askedMs))
            <==> GetCooldown(w.store, p.provider, p.askedMs) == EngineOf(w, p.engine).cooldownUntilMs
  {
    var until := EngineOf(w, p.engine).cooldownUntilMs.value;
    RoundingAgrees(until - p.askedMs);
    var decision := Decide(b, w.store, p, p.askedMs);
    if decision.Block? && decision.reason != CooldownActive {
      assert ReasonText(decision.reason)[0] == 't' || ReasonText(decision.reason)[0] == 'r';
      assert "cooldown_active"[0] == 'c';
    }
  }

  /** One engine, two providers: after a block on "a" the engine blocks "b", which the backend allows. */
  lemma TwoProvidersDiverge()
    ensures exists b: Backend, first: Preflight, second: Preflight ::
              && ValidBackend(b) && ValidTimes(first, 0) && ValidTimes(second, first.receivedMs)
              && first.engine == second.engine && first.provider != second.provider
              && var w := CachedStep(b, World(map[], map[]), first);
                 CachedAnswer(b, w, second).decision == "block"
                     && DirectAnswer(b, w.store, second, second.askedMs).decision == "allow"
  {
    var b := Backend(Project(true, None, Some(100), false, false), Settings(Ladder([], []), 60, 300));
    var first := Preflight(0, "a", Counters(1, 100), Request(None, None), 10, 10, 10, 10);
    var second := Preflight(0, "b", Counters(0, 0), Request(None, None), 20, 20, 20, 20);
    var w := CachedStep(b, World(map[], map[]), first);
    assert CeilSeconds(60000) == 60;
    assert Decide(b, map[], first, 10) == Block(TokCapBreach, 60010, 60);
    assert w.engines[0].cooldownUntilMs == Some(60010);
    assert GetCooldown(w.store, "b", 20) == None;
    assert DirectAnswer(b, w.store, second, second.askedMs).decision == "allow";
  }
}
