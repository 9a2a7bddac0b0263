/** The SDK preflight engines: a cached cooldown, a learned fail mode and the decoding of replies. */
module ProtectEngine {
  import opened Text
  import opened ProtectDecision

  /** A JSON value where a number is expected.  A text carries what JavaScript's Number() makes of it, None
      for NaN and the infinities. */
  datatype Field = Missing | Whole(n: int) | Fractional(x: real) | Text(number: Option<real>) | Flag(on: bool)

  /** The decision endpoint's reply; timestamps are epoch milliseconds. */
  datatype Payload = Payload(
    decision: string,
    reason: Option<string>,
    failMode: string,
    timeoutMs: Field,
    blockedUntilMs: Option<int>,
    retryAfterSeconds: Field,
    applyClamp: Option<bool>,
    recommended: Field)

  /** A decoded answer, a non-success status or transport failure, or a timeout. */
  datatype Reply = Answered(payload: Payload) | Unavailable | TimedOut

  datatype Evaluation = Evaluation(
    decision: string,
    reason: string,
    blockedUntilMs: Option<int>,
    retryAfterSeconds: Option<int>,
    applyClamp: Option<bool>,
    recommended: Option<int>)

  datatype EngineState = EngineState(
    cooldownUntilMs: Option<int>, cooldownReason: Option<string>, failMode: string, timeoutMs: real)

  // ---- what both engines do ----

  predicate LocalHit(e: EngineState, nowMs: int) {
    e.cooldownUntilMs.Some? && nowMs < e.cooldownUntilMs.value
  }

  function LearnModes(e: EngineState, failMode: string, timeoutMs: Option<real>): EngineState {
    var e1 := if failMode == "open" || failMode == "closed" then e.(failMode := failMode) else e;
    if timeoutMs.Some? then e1.(timeoutMs := timeoutMs.value) else e1
  }

  function LearnCooldown(e: EngineState, until: Option<int>, receivedMs: int): EngineState {
    if until.Some? && until.value > receivedMs then
      e.(cooldownUntilMs := until, cooldownReason := Some("cooldown_active"))
    else if e.cooldownUntilMs.Some? && receivedMs >= e.cooldownUntilMs.value then
      e.(cooldownUntilMs := None, cooldownReason := None)
    else e
  }

  function Fallback(e: EngineState): Evaluation {
    if e.failMode == "closed" then Evaluation("block", "fail_closed", None, None, None, None)
    else Evaluation("allow", "decision_unavailable", None, None, None, None)
  }

  function AtLeast(n: Option<int>, least: int): Option<int> {
    if n.Some? && n.value >= least then n else None
  }

  predicate KnownDecision(decision: string) {
    decision == "allow" || decision == "clamp" || decision == "block"
  }

  // ---- the Python engine ----

  /** What passes isinstance(value, int); a flag does. */
  function PyInt(f: Field): Option<int> {
    match f
    case Whole(n) => Some(n)
    case Flag(on) => Some(if on then 1 else 0)
    case _ => None
  }

  function PyTimeout(f: Field): Option<real> {
    if PyInt(f).Some? && PyInt(f).value > 0 then Some(PyInt(f).value as real) else None
  }

  function PyRetryAfter(untilMs: int, nowMs: int): Option<int> {
    if untilMs <= nowMs then None else Some(Max(0, (untilMs - nowMs + 999) / 1000))
  }

  function PyLocalBlock(e: EngineState, nowMs: int): Evaluation
    requires LocalHit(e, nowMs)
  {
    var until := e.cooldownUntilMs.value;
    Evaluation("block", Or(e.cooldownReason, "cooldown_active"), if until <= 0 then None else Some(until),
               PyRetryAfter(until, nowMs), None, None)
  }

  function PyRead(p: Payload): Evaluation {
    Evaluation(if KnownDecision(p.decision) then p.decision else "allow",
               Or(p.reason, "ok"),
               p.blockedUntilMs,
               AtLeast(PyInt(p.retryAfterSeconds), 0),
               p.applyClamp,
               AtLeast(PyInt(p.recommended), 1))
  }

  function PyLearn(e: EngineState, p: Payload, receivedMs: int): EngineState {
    LearnCooldown(LearnModes(e, p.failMode, PyTimeout(p.timeoutMs)), p.blockedUntilMs, receivedMs)
  }

  class PythonEngine {
    var cooldownUntilMs: Option<int>
    var cooldownReason: Option<string>
    var failMode: string
    var timeoutMs: real

    ghost function State(): EngineState
      reads this
    {
      EngineState(cooldownUntilMs, cooldownReason, failMode, timeoutMs)
    }

    constructor (failMode: string, timeoutMs: real, defaultTimeoutMs: real)
      ensures State() == EngineState(None, None, if failMode == "closed" then "closed" else "open",
                                     if timeoutMs > 0.0 then timeoutMs else defaultTimeoutMs)
    {
      this.cooldownUntilMs, this.cooldownReason := None, None;
      this.failMode := if failMode == "open" || failMode == "closed" then failMode else "open";
      this.timeoutMs := if timeoutMs > 0.0 then timeoutMs else defaultTimeoutMs;
    }

    /** One preflight: `reply` is what the backend would send if asked, `receivedMs` the clock then. */
    method Evaluate(nowMs: int, reply: Reply, receivedMs: int) returns (result: Evaluation)
      modifies this
      ensures old(LocalHit(State(), nowMs)) ==> State() == old(State()) && result == PyLocalBlock(old(State()), nowMs)
      ensures !old(LocalHit(State(), nowMs)) && reply.Answered? ==>
                State() == PyLearn(old(State()), reply.payload, receivedMs) && result == PyRead(reply.payload)
      ensures !old(LocalHit(State(), nowMs)) && !reply.Answered? ==>
                State() == old(State()) && result == Fallback(old(State()))
    {
      if cooldownUntilMs.Some? && nowMs < cooldownUntilMs.value {
        var until := cooldownUntilMs.value;
        return Evaluation("block", Or(cooldownReason, "cooldown_active"), if until <= 0 then None else Some(until),
                          PyRetryAfter(until, nowMs), None, None);
      }
      if !reply.Answered? {
        if failMode == "closed" {
          return Evaluation("block", "fail_closed", None, None, None, None);
        }
        return Evaluation("allow", "decision_unavailable", None, None, None, None);
      }
      var p := reply.payload;
      if p.failMode == "open" || p.failMode == "closed" {
        failMode := p.failMode;
      }
      var timeout := PyInt(p.timeoutMs);
      if timeout.Some? && timeout.value > 0 {
        timeoutMs := timeout.value as real;
      }
      if p.blockedUntilMs.Some? && p.blockedUntilMs.value > receivedMs {
        cooldownUntilMs := p.blockedUntilMs;
        cooldownReason := Some("cooldown_active");
      } else if cooldownUntilMs.Some? && receivedMs >= cooldownUntilMs.value {
        cooldownUntilMs := None;
        cooldownReason := None;
      }
      result := PyRead(p);
    }
  }

  // ---- the Node engine ----

  /** JavaScript's Number(value), if it is finite. */
  function NumberOf(f: Field): Option<real> {
    match f
    case Missing => None
    case Whole(n) => Some(n as real)
    case Fractional(x) => Some(x)
    case Text(number) => number
    case Flag(on) => Some(if on then 1.0 else 0.0)
  }

  function NodeTimeout(f: Field): Option<real> {
    if NumberOf(f).Some? && NumberOf(f).value > 0.0 then NumberOf(f) else None
  }

  /** A value whose typeof is "number" and that is large enough, rounded down. */
  function NodeFloor(f: Field, least: real): Option<int> {
    match f
    case Whole(n) => if n as real >= least then Some(n) else None
    case Fractional(x) => if x >= least then Some(x.Floor) else None
    case _ => None
  }

  function NodeRetryAfter(untilMs: int, nowMs: int): Option<int> {
    if untilMs <= nowMs then None else Some(Max(0, CeilSeconds(untilMs - nowMs)))
  }

  function NodeLocalBlock(e: EngineState, nowMs: int): Evaluation
    requires LocalHit(e, nowMs)
  {
    var until := e.cooldownUntilMs.value;
    Evaluation("block", if e.cooldownReason.Some? then e.cooldownReason.value else "cooldown_active",
               if until <= 0 then None else Some(until), NodeRetryAfter(until, nowMs), None, None)
  }

  function NodeRead(p: Payload): Evaluation {
    Evaluation(if KnownDecision(p.decision) then p.decision else "allow",
               if p.reason.Some? then p.reason.value else "ok",
               p.blockedUntilMs,
               NodeFloor(p.retryAfterSeconds, 0.0),
               p.applyClamp,
               NodeFloor(p.recommended, 1.0))
  }

  /** Node rejects a blocked-until at or before the epoch. */
  function NodeParseUntil(until: Option<int>): Option<int> {
    if until.Some? && until.value > 0 then until else None
  }

  function NodeLearn(e: EngineState, p: Payload, receivedMs: int): EngineState {
    LearnCooldown(LearnModes(e, p.failMode, NodeTimeout(p.timeoutMs)), NodeParseUntil(p.blockedUntilMs), receivedMs)
  }

  class NodeEngine {
    var cooldownUntilMs: Option<int>
    var cooldownReason: Option<string>
    var failMode: string
    var timeoutMs: real

    ghost function State(): EngineState
      reads this
    {
      EngineState(cooldownUntilMs, cooldownReason, failMode, timeoutMs)
    }

    constructor (failMode: string, timeoutMs: Option<real>, defaultTimeoutMs: real)
      ensures State() == EngineState(None, None, failMode,
                                     if timeoutMs.Some? && timeoutMs.value > 0.0
                                         then timeoutMs.value else defaultTimeoutMs)
    {
      this.cooldownUntilMs, this.cooldownReason, this.failMode := None, None, failMode;
      this.timeoutMs := if timeoutMs.Some? && timeoutMs.value > 0.0 then timeoutMs.value else defaultTimeoutMs;
    }

    method Evaluate(nowMs: int, reply: Reply, receivedMs: int) returns (result: Evaluation)
      modifies this
      ensures old(LocalHit(State(), nowMs)) ==> State() == old(State()) && result == NodeLocalBlock(old(State()), nowMs)
      ensures !old(LocalHit(State(), nowMs)) && reply.Answered? ==>
                State() == NodeLearn(old(State()), reply.payload, receivedMs) && result == NodeRead(reply.payload)
      ensures !old(LocalHit(State(), nowMs)) && !reply.Answered? ==>
                State() == old(State()) && result == Fallback(old(State()))
    {
      if cooldownUntilMs.Some? && nowMs < cooldownUntilMs.value {
        var until := cooldownUntilMs.value;
        var reason := if cooldownReason.Some? then cooldownReason.value else "cooldown_active";
        var blockedUntil := if until <= 0 then None else Some(until);
        return Evaluation("block", reason, blockedUntil, NodeRetryAfter(until, nowMs), None, None);
      }
      if !reply.Answered? {
        var closed := failMode == "closed";
        return Evaluation(if closed then "block" else "allow", if closed then "fail_closed" else "decision_unavailable",
                          None, None, None, None);
      }
      var p := reply.payload;
      if p.failMode == "open" || p.failMode == "closed" {
        failMode := p.failMode;
      }
      var timeout := NumberOf(p.timeoutMs);
      if timeout.Some? && timeout.value > 0.0 {
        timeoutMs := timeout.value;
      }
      var until := NodeParseUntil(p.blockedUntilMs);
      if until.Some? && until.value > receivedMs {
        cooldownUntilMs := until;
        cooldownReason := Some("cooldown_active");
      } else if cooldownUntilMs.Some? && receivedMs >= cooldownUntilMs.value {
        cooldownUntilMs := None;
        cooldownReason := None;
      }
      result := NodeRead(p);
    }
  }

  // ---- the two engines and the backend agree ----

  /** Rounding up to whole seconds by adding 999 is the ceiling that the backend and Node compute. */
  lemma RoundingAgrees(ms: int)
    ensures (ms + 999) / 1000 == CeilSeconds(ms)
  {
    var q, r := ms / 1000, ms % 1000;
    assert ms == 1000 * q + r;
    if r == 0 {
      assert (ms + 999) / 1000 == q && (-ms) / 1000 == -q;
    } else {
      assert (ms + 999) / 1000 == q + 1 && (-ms) / 1000 == -q - 1;
    }
  }

  /** A cached reason, if any, is not the empty string. */
  predicate SaneCache(e: EngineState) {
    e.cooldownReason.Some? ==> e.cooldownReason.value != ""
  }

  /** Number() accepts positive fractions and numeric texts that the Python engine ignores. */
  predicate TimeoutReadAlike(f: Field) {
    match f
    case Fractional(x) => x <= 0.0
    case Text(number) => number.None? || number.value <= 0.0
    case _ => true
  }

  /** Node rounds fractions down where Python ignores them, and ignores flags where Python counts them. */
  predicate CountReadAlike(f: Field, least: int) {
    match f
    case Fractional(x) => x < least as real
    case Flag(on) => least == 1 && !on
    case _ => true
  }

  /** On a clock past the epoch the engines of the two SDKs block alike from their caches; they decode a reply
      alike exactly when its reason is not the empty text and its numbers are read alike, and learn alike
      exactly when the timeout is read alike or is the one already in force. */
  lemma EnginesAgree(e: EngineState, p: Payload, nowMs: int, receivedMs: int)
    requires SaneCache(e) && receivedMs >= 0
    ensures LocalHit(e, nowMs) ==> PyLocalBlock(e, nowMs) == NodeLocalBlock(e, nowMs)
    ensures PyRead(p) == NodeRead(p)
            <==> p.reason != Some("") && CountReadAlike(p.retryAfterSeconds, 0) && CountReadAlike(p.recommended, 1)
    ensures PyLearn(e, p, receivedMs) == NodeLearn(e, p, receivedMs)
            <==> TimeoutReadAlike(p.timeoutMs) || NodeTimeout(p.timeoutMs) == Some(e.timeoutMs)
    ensures SaneCache(PyLearn(e, p, receivedMs)) && SaneCache(NodeLearn(e, p, receivedMs))
  {
    if LocalHit(e, nowMs) {
      RoundingAgrees(e.cooldownUntilMs.value - nowMs);
    }
  }
}
