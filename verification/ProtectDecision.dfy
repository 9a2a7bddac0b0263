/** The protect preflight: caps first, then the staged output clamp. */
module ProtectDecision {
  import opened Text

  /** Stage i lowers the output to ratios[i] once the projected tokens reach thresholds[i] of the cap. */
  datatype Ladder = Ladder(thresholds: seq<real>, ratios: seq<real>)

  /** The service refuses to start with ladders of unequal length. */
  predicate ValidLadder(ladder: Ladder) {
    |ladder.thresholds| == |ladder.ratios|
  }

  datatype Project = Project(
    protectEnabled: bool, maxReq: Option<int>, maxTok: Option<int>, failClosed: bool, applyClamp: bool)

  datatype Settings = Settings(ladder: Ladder, cooldownSeconds: int, decisionTimeoutMs: int)

  datatype Counters = Counters(requests: int, tokens: int)

  datatype Request = Request(inputEstimate: Option<int>, maxOutput: Option<int>)

  datatype Reason = TokCapBreach | ReqCapBreach | CooldownActive

  datatype Decision =
    | Allow
    | Clamp(recommended: int)
    | Block(reason: Reason, blockedUntilMs: int, retryAfterSeconds: int)

  // ---- the ladder ----

  predicate Reached(threshold: real, projected: int, maxTok: int) {
    projected >= Trunc(maxTok as real * threshold)
  }

  /** The ratio of the last stage whose threshold is reached. */
  function SelectedRatio(ladder: Ladder, projected: int, maxTok: int): (ratio: Option<real>)
    requires ValidLadder(ladder)
    decreases |ladder.thresholds|
  {
    var n := |ladder.thresholds|;
    if n == 0 then None
    else if Reached(ladder.thresholds[n-1], projected, maxTok) then Some(ladder.ratios[n-1])
    else SelectedRatio(Ladder(ladder.thresholds[..n-1], ladder.ratios[..n-1]), projected, maxTok)
  }

  method ResolveRatio(ladder: Ladder, projected: int, maxTok: int) returns (selected: Option<real>)
    requires ValidLadder(ladder)
    ensures selected == SelectedRatio(ladder, projected, maxTok)
  {
    selected := None;
    ghost var stages := Ladder([], []);
    for i := 0 to |ladder.thresholds|
      invariant stages == Ladder(ladder.thresholds[..i], ladder.ratios[..i])
      invariant selected == SelectedRatio(stages, projected, maxTok)
    {
      if Reached(ladder.thresholds[i], projected, maxTok) {
        selected := Some(ladder.ratios[i]);
      }
      stages := Ladder(ladder.thresholds[..i+1], ladder.ratios[..i+1]);
      assert stages.thresholds[..i] == ladder.thresholds[..i] && stages.ratios[..i] == ladder.ratios[..i];
    }
    assert stages == ladder;
  }

  /** No stage is reached, or `i` is the last one that is. */
  lemma {:induction false} LastReachedStage(ladder: Ladder, projected: int, maxTok: int) returns (i: int)
    requires ValidLadder(ladder)
    ensures -1 <= i < |ladder.thresholds|
    ensures forall j | i < j < |ladder.thresholds| :: !Reached(ladder.thresholds[j], projected, maxTok)
    ensures i == -1 ==> SelectedRatio(ladder, projected, maxTok) == None
    ensures i >= 0 ==> Reached(ladder.thresholds[i], projected, maxTok)
                       && SelectedRatio(ladder, projected, maxTok) == Some(ladder.ratios[i])
    decreases |ladder.thresholds|
  {
    var n := |ladder.thresholds|;
    if n == 0 {
      i := -1;
    } else if Reached(ladder.thresholds[n-1], projected, maxTok) {
      i := n - 1;
    } else {
      var shorter := Ladder(ladder.thresholds[..n-1], ladder.ratios[..n-1]);
      i := LastReachedStage(shorter, projected, maxTok);
      forall j | i < j < n ensures !Reached(ladder.thresholds[j], projected, maxTok) {
        if j < n - 1 {
          assert shorter.thresholds[j] == ladder.thresholds[j];
        }
      }
    }
  }

  // ---- the clamp and the decision ----

  function EstimatedNext(request: Request): Option<int> {
    if request.inputEstimate.None? then None
    else
      var output := if request.maxOutput.Some? then Max(request.maxOutput.value, 0) else 0;
      Some(Max(request.inputEstimate.value, 0) + output)
  }

  function BuildClamp(ladder: Ladder, maxTok: Option<int>, tokens: int, maxOutput: Option<int>,
                      estimatedNext: Option<int>): Option<int>
    requires ValidLadder(ladder)
  {
    if maxTok.None? || maxTok.value <= 0 then None
    else if maxOutput.None? || maxOutput.value <= 0 then None
    else if estimatedNext.None? then None
    else
      var ratio := SelectedRatio(ladder, tokens + estimatedNext.value, maxTok.value);
      if ratio.None? then None
      else
        var input := Max(estimatedNext.value - maxOutput.value, 0);
        var available := maxTok.value - tokens - input;
        Some(Recommended(maxOutput.value, ratio.value, available))
  }

  function Recommended(maxOutput: int, ratio: real, available: int): int {
    Max(1, Min(Min(maxOutput, Max(1, Trunc(maxOutput as real * ratio))), available))
  }

  /** Python's ceil(ms / 1000). */
  function CeilSeconds(ms: int): int {
    -((-ms) / 1000)
  }

  function CapBlock(settings: Settings, reason: Reason, nowMs: int): Decision {
    var until := nowMs + Max(settings.cooldownSeconds, 1) * 1000;
    Block(reason, until, Max(0, CeilSeconds(until - nowMs)))
  }

  function Evaluate(project: Project, settings: Settings, counters: Counters, request: Request,
                    cooldownUntilMs: Option<int>, nowMs: int): Decision
    requires ValidLadder(settings.ladder)
  {
    if !project.protectEnabled then Allow
    else if cooldownUntilMs.Some? && nowMs < cooldownUntilMs.value then
      Block(CooldownActive, cooldownUntilMs.value, Max(0, CeilSeconds(cooldownUntilMs.value - nowMs)))
    else if project.maxTok.Some? && counters.tokens >= project.maxTok.value then CapBlock(settings, TokCapBreach, nowMs)
    else if project.maxReq.Some? && counters.requests >= project.maxReq.value then
      CapBlock(settings, ReqCapBreach, nowMs)
    else
      var clamp := BuildClamp(settings.ladder, project.maxTok, counters.tokens, request.maxOutput,
          EstimatedNext(request));
      if project.applyClamp && clamp.Some? && request.maxOutput.Some? && clamp.value < request.maxOutput.value
      then Clamp(clamp.value)
      else Allow
  }

  /** The output a request of `maxOutput` tokens may produce under a decision. */
  function Permitted(decision: Decision, maxOutput: int): int {
    match decision
    case Allow => maxOutput
    case Clamp(recommended) => recommended
    case Block(_, _, _) => 0
  }
}
