/** What an engine does without an answer: it fails open or closed as the last backend that answered it said. */
module FailMode {
  import opened Text
  import opened ProtectDecision
  import opened ProtectEngine
  import C = Cooldown

  /** One preflight: the backend's decision arrives, or nothing usable does. */
  datatype Exchange =
    | Heard(backend: C.Backend, decision: Decision, askedMs: int, receivedMs: int)
    | Silent(timedOut: bool, askedMs: int)

  function ReplyOf(x: Exchange): Reply {
    match x
    case Heard(backend, decision, _, _) => Answered(C.Wire(backend, decision))
    case Silent(timedOut, _) => if timedOut then TimedOut else Unavailable
  }

  function ReceivedMs(x: Exchange): int {
    if x.Heard? then x.receivedMs else x.askedMs
  }

  /** What the contracts of the two engines' Evaluate methods say about one call. */
  function PyCall(e: EngineState, x: Exchange): (EngineState, Evaluation) {
    if LocalHit(e, x.askedMs) then (e, PyLocalBlock(e, x.askedMs))
    else
      match ReplyOf(x)
      case Answered(p) => (PyLearn(e, p, ReceivedMs(x)), PyRead(p))
      case _ => (e, Fallback(e))
  }

  function NodeCall(e: EngineState, x: Exchange): (EngineState, Evaluation) {
    if LocalHit(e, x.askedMs) then (e, NodeLocalBlock(e, x.askedMs))
    else
      match ReplyOf(x)
      case Answered(p) => (NodeLearn(e, p, ReceivedMs(x)), NodeRead(p))
      case _ => (e, Fallback(e))
  }

  function PyRun(e: EngineState, run: seq<Exchange>): EngineState
    decreases |run|
  {
    if run == [] then e else PyCall(PyRun(e, run[..|run| - 1]), run[|run| - 1]).0
  }

  function NodeRun(e: EngineState, run: seq<Exchange>): EngineState
    decreases |run|
  {
    if run == [] then e else NodeCall(NodeRun(e, run[..|run| - 1]), run[|run| - 1]).0
  }

  /** The backend whose answer the engine last took in; a call that its cache answered asked nobody. */
  function LastHeard(states: seq<EngineState>, run: seq<Exchange>): Option<C.Backend>
    requires |states| == |run|
  {
    if run == [] then None
    else
      var n := |run| - 1;
      if run[n].Heard? && !LocalHit(states[n], run[n].askedMs) then Some(run[n].backend)
      else LastHeard(states[..n], run[..n])
  }

  /** The engine's states before each call of a run. */
  function PyStates(e: EngineState, run: seq<Exchange>): (states: seq<EngineState>)
    ensures |states| == |run|
    decreases |run|
  {
    if run == [] then [] else PyStates(e, run[..|run| - 1]) + [PyRun(e, run[..|run| - 1])]
  }

  function NodeStates(e: EngineState, run: seq<Exchange>): (states: seq<EngineState>)
    ensures |states| == |run|
    decreases |run|
  {
    if run == [] then [] else NodeStates(e, run[..|run| - 1]) + [NodeRun(e, run[..|run| - 1])]
  }

  /** Whether the engine should fail closed: as the last backend heard, and as configured before any. */
  predicate ShouldFailClosed(configured: string, heard: Option<C.Backend>) {
    if heard.None? then configured == "closed" else heard.value.project.failClosed
  }

  /** One call takes over the mode of the backend it hears, and keeps the mode otherwise. */
  lemma PyCallMode(e: EngineState, x: Exchange)
    ensures PyCall(e, x).0.failMode
            == if !x.Heard? || LocalHit(e, x.askedMs) then e.failMode
               else if x.backend.project.failClosed then "closed" else "open"
  {
  }

  lemma PyStatesOfFront(e: EngineState, run: seq<Exchange>)
    requires run != []
    ensures PyStates(e, run)[..|run| - 1] == PyStates(e, run[..|run| - 1])
    ensures PyStates(e, run)[|run| - 1] == PyRun(e, run[..|run| - 1])
  {
  }

  lemma {:induction false} PyModeIsLastHeard(e: EngineState, run: seq<Exchange>)
    ensures PyRun(e, run).failMode == "closed" <==> ShouldFailClosed(e.failMode, LastHeard(PyStates(e, run), run))
    decreases |run|
  {
    if run == [] {
    } else {
      PyModeIsLastHeard(e, run[..|run| - 1]);
      PyStatesOfFront(e, run);
      PyCallMode(PyRun(e, run[..|run| - 1]), run[|run| - 1]);
      assert "open" != "closed" by { assert "open"[0] == 'o' && "closed"[0] == 'c'; }
    }
  }

  /** One call takes over the mode of the backend it hears, and keeps the mode otherwise. */
  lemma NodeCallMode(e: EngineState, x: Exchange)
    ensures NodeCall(e, x).0.failMode
            == if !x.Heard? || LocalHit(e, x.askedMs) then e.failMode
               else if x.backend.project.failClosed then "closed" else "open"
  {
  }

  lemma NodeStatesOfFront(e: EngineState, run: seq<Exchange>)
    requires run != []
    ensures NodeStates(e, run)[..|run| - 1] == NodeStates(e, run[..|run| - 1])
    ensures NodeStates(e, run)[|run| - 1] == NodeRun(e, run[..|run| - 1])
  {
  }

  lemma {:induction false} NodeModeIsLastHeard(e: EngineState, run: seq<Exchange>)
    ensures NodeRun(e, run).failMode == "closed" <==> ShouldFailClosed(e.failMode, LastHeard(NodeStates(e, run), run))
    decreases |run|
  {
    if run == [] {
    } else {
      NodeModeIsLastHeard(e, run[..|run| - 1]);
      NodeStatesOfFront(e, run);
      NodeCallMode(NodeRun(e, run[..|run| - 1]), run[|run| - 1]);
      assert "open" != "closed" by { assert "open"[0] == 'o' && "closed"[0] == 'c'; }
    }
  }

  /** After any run, an unanswered preflight with no live cached cooldown blocks with "fail_closed" when the last
      backend heard fails closed (before any answer: when the engine is configured so), and otherwise allows with
      "decision_unavailable"; the engine is left as it was.  Python. */
  lemma PyFailsAsLastHeard(e: EngineState, run: seq<Exchange>, timedOut: bool, askedMs: int)
    requires !LocalHit(PyRun(e, run), askedMs)
    ensures PyCall(PyRun(e, run), Silent(timedOut, askedMs))
            == (PyRun(e, run),
                if ShouldFailClosed(e.failMode, LastHeard(PyStates(e, run), run))
                then Evaluation("block", "fail_closed", None, None, None, None)
                else Evaluation("allow", "decision_unavailable", None, None, None, None))
  {
    PyModeIsLastHeard(e, run);
  }

  /** The same for Node. */
  lemma NodeFailsAsLastHeard(e: EngineState, run: seq<Exchange>, timedOut: bool, askedMs: int)
    requires !LocalHit(NodeRun(e, run), askedMs)
    ensures NodeCall(NodeRun(e, run), Silent(timedOut, askedMs))
            == (NodeRun(e, run),
                if ShouldFailClosed(e.failMode, LastHeard(NodeStates(e, run), run))
                then Evaluation("block", "fail_closed", None, None, None, None)
                else Evaluation("allow", "decision_unavailable", None, None, None, None))
  {
    NodeModeIsLastHeard(e, run);
  }

  // ---- decisions survive the wire ----

  function Named(reason: Reason): string {
    match reason
    case TokCapBreach => "tok_cap_breach"
    case ReqCapBreach => "req_cap_breach"
    case CooldownActive => "cooldown_active"
  }

  /** What a caller should read of a decision. */
  function Meant(b: C.Backend, decision: Decision): Evaluation {
    var on := Some(b.project.applyClamp);
    match decision
    case Allow => Evaluation("allow", "ok", None, None, on, None)
    case Clamp(n) => Evaluation("clamp", "token_clamp", None, None, on, Some(n))
    case Block(reason, until, retry) => Evaluation("block", Named(reason), Some(until), Some(retry), on, None)
  }

  /** Encoding a decision and decoding it with either engine gives it back, for every project, request and time. */
  lemma DecisionsRoundTrip(b: C.Backend, counters: Counters, request: Request, cooldownUntilMs: Option<int>, nowMs: int)
    requires C.ValidBackend(b)
    ensures var decision := Evaluate(b.project, b.settings, counters, request, cooldownUntilMs, nowMs);
            PyRead(C.Wire(b, decision)) == NodeRead(C.Wire(b, decision)) == Meant(b, decision)
  {
  }

  /** A decision that the engines do not know is taken as "allow". */
  lemma UnknownMeansAllow(p: Payload)
    requires p.decision !in ["allow", "clamp", "block"]
    ensures PyRead(p).decision == NodeRead(p).decision == "allow"
  {
  }

  /** Where Node takes a fraction it takes the whole number below it; Python takes none. */
  lemma FractionsRoundDown(p: Payload, x: real)
    requires p.retryAfterSeconds == Fractional(x) && x >= 0.0
    ensures PyRead(p).retryAfterSeconds == None && NodeRead(p).retryAfterSeconds.Some?
    ensures var n := NodeRead(p).retryAfterSeconds.value; n as real <= x < n as real + 1.0
  {
  }

  /** An engine that heard a timeout from a backend uses it from then on. */
  lemma TimeoutIsLearned(e: EngineState, b: C.Backend, decision: Decision, askedMs: int, receivedMs: int)
    requires !LocalHit(e, askedMs) && b.settings.decisionTimeoutMs >= 1
    ensures var x := Heard(b, decision, askedMs, receivedMs);
            PyCall(e, x).0.timeoutMs == NodeCall(e, x).0.timeoutMs == b.settings.decisionTimeoutMs as real
  {
  }
}
