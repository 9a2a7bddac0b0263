/** What the clamp guarantees: it fits the budget or is minimal, it never loosens under pressure, and it
    bounds whole runs. */
module ClampProperties {
  import opened Text
  import opened ProtectDecision

  function Ask(input: int, maxOutput: int): Request {
    Request(Some(input), Some(maxOutput))
  }

  lemma TruncMonotone(x: real, y: real)
    requires x <= y
    ensures Trunc(x) <= Trunc(y)
  {
  }

  lemma ProductSign(a: real, b: real)
    requires a >= 0.0 && b >= 0.0
    ensures a * b >= 0.0
    ensures a > 0.0 && b > 0.0 ==> a * b > 0.0
  {
  }

  lemma ScaleRatio(m: real, low: real, high: real)
    requires m >= 0.0 && low <= high
    ensures m * low <= m * high
  {
    ProductSign(m, high - low);
    assert m * high == m * low + m * (high - low);
  }

  lemma TruncScale(m: int, low: real, high: real)
    requires m >= 0 && low <= high
    ensures Trunc(m as real * low) <= Trunc(m as real * high)
  {
    ScaleRatio(m as real, low, high);
    TruncMonotone(m as real * low, m as real * high);
  }

  lemma ScaleMonotone(a: int, b: int, factor: real)
    requires a <= b && factor >= 0.0
    ensures Trunc(a as real * factor) <= Trunc(b as real * factor)
  {
    ScaleRatio(factor, a as real, b as real);
    assert factor * a as real == a as real * factor && factor * b as real == b as real * factor;
    TruncMonotone(a as real * factor, b as real * factor);
  }

  // ---- fits or is minimal ----

  /** The permitted output fits the remaining budget, or is a single token. */
  predicate FitsOrMinimal(cap: int, tokens: int, input: int, output: int) {
    tokens + Max(input, 0) + output <= cap || output == 1
  }

  /** Everything while no stage is reached, otherwise the recommendation. */
  function StagedOutput(ladder: Ladder, used: int, cap: int, maxOutput: int): int
    requires ValidLadder(ladder)
  {
    var ratio := SelectedRatio(ladder, used + maxOutput, cap);
    if ratio.None? then maxOutput else Min(Recommended(maxOutput, ratio.value, cap - used), maxOutput)
  }

  /** What a request that is not blocked may produce. */
  lemma PermittedOutput(project: Project, settings: Settings, counters: Counters, input: int, maxOutput: int,
                        cooldownUntilMs: Option<int>, nowMs: int)
    requires ValidLadder(settings.ladder) && maxOutput >= 1
    requires project.protectEnabled && project.applyClamp && project.maxTok.Some? && project.maxTok.value >= 1
    ensures var decision := Evaluate(project, settings, counters, Ask(input, maxOutput), cooldownUntilMs, nowMs);
            var cap, used := project.maxTok.value, counters.tokens + Max(input, 0);
            !decision.Block? ==> Permitted(decision, maxOutput) == StagedOutput(settings.ladder, used, cap, maxOutput)
  {
    assert counters.tokens + (Max(input, 0) + maxOutput) == counters.tokens + Max(input, 0) + maxOutput;
  }

  /** What a stage of the given ratio allows: no more than its share of the request, and what is left of the cap. */
  predicate Allowed(output: int, maxOutput: int, ratio: real, used: int, cap: int) {
    1 <= output <= maxOutput && output as real <= maxOutput as real * ratio && used + output <= cap
  }

  lemma FloorIsGreatest(x: real, n: int)
    requires n >= 1
    ensures n as real <= x <==> n <= Trunc(x)
  {
  }

  lemma RecommendedIsGreatest(maxOutput: int, ratio: real, used: int, cap: int)
    requires maxOutput >= 1
    ensures var output := Min(Recommended(maxOutput, ratio, cap - used), maxOutput);
            && (forall n :: Allowed(n, maxOutput, ratio, used, cap) ==> n <= output)
            && (output == 1 || Allowed(output, maxOutput, ratio, used, cap))
  {
    var share := maxOutput as real * ratio;
    var output := Min(Recommended(maxOutput, ratio, cap - used), maxOutput);
    FloorIsGreatest(share, output);
    forall n | Allowed(n, maxOutput, ratio, used, cap) ensures n <= output {
      FloorIsGreatest(share, n);
    }
  }

  /** A threshold of the cap counts as reached from one token below it on, rounding down. */
  lemma ReachedMeans(threshold: real, projected: int, cap: int)
    requires cap as real * threshold >= 0.0
    ensures Reached(threshold, projected, cap) <==> projected as real > cap as real * threshold - 1.0
  {
  }

  /** What is let through: on the last stage i that the projection reaches, the greatest output that the stage
      allows, or one token if it allows none; below every stage (i == -1) the whole request.  It is a clamp
      exactly when that is less than the request asks for. */
  lemma LetThroughIsGreatest(project: Project, settings: Settings, counters: Counters, input: int, maxOutput: int,
                             cooldownUntilMs: Option<int>, nowMs: int, i: int)
    requires ValidLadder(settings.ladder) && maxOutput >= 1
    requires project.protectEnabled && project.applyClamp && project.maxTok.Some? && project.maxTok.value >= 1
    requires -1 <= i < |settings.ladder.thresholds|
    requires var cap, projected := project.maxTok.value, counters.tokens + Max(input, 0) + maxOutput;
             && (i >= 0 ==> Reached(settings.ladder.thresholds[i], projected, cap))
             && forall j | i < j < |settings.ladder.thresholds| ::
                  !Reached(settings.ladder.thresholds[j], projected, cap)
    requires !Evaluate(project, settings, counters, Ask(input, maxOutput), cooldownUntilMs, nowMs).Block?
    ensures var decision := Evaluate(project, settings, counters, Ask(input, maxOutput), cooldownUntilMs, nowMs);
            var output := Permitted(decision, maxOutput);
            var cap, used := project.maxTok.value, counters.tokens + Max(input, 0);
            && (decision.Clamp? <==> output < maxOutput)
            && (i == -1 ==> output == maxOutput)
            && (i >= 0 ==>
                  var ratio := settings.ladder.ratios[i];
                  && (forall n :: Allowed(n, maxOutput, ratio, used, cap) ==> n <= output)
                  && (output == 1 || Allowed(output, maxOutput, ratio, used, cap)))
  {
    var cap, used := project.maxTok.value, counters.tokens + Max(input, 0);
    var last := LastReachedStage(settings.ladder, used + maxOutput, cap);
    assert last == i;
    PermittedOutput(project, settings, counters, input, maxOutput, cooldownUntilMs, nowMs);
    if i >= 0 {
      RecommendedIsGreatest(maxOutput, settings.ladder.ratios[i], used, cap);
    }
  }

  /** A request is blocked exactly on a live cooldown or a reached cap, in this order: the cooldown, the token cap,
      the request cap.  The end of a cap block lies the configured cooldown ahead, and retry-after is the least
      whole number of seconds that reaches the end. */
  lemma BlocksExactly(project: Project, settings: Settings, counters: Counters, request: Request,
                      cooldownUntilMs: Option<int>, nowMs: int)
    requires ValidLadder(settings.ladder)
    ensures var decision := Evaluate(project, settings, counters, request, cooldownUntilMs, nowMs);
            var cooling := cooldownUntilMs.Some? && nowMs < cooldownUntilMs.value;
            var tokensOut := project.maxTok.Some? && project.maxTok.value <= counters.tokens;
            var requestsOut := project.maxReq.Some? && project.maxReq.value <= counters.requests;
            && (decision.Block? <==> project.protectEnabled && (cooling || tokensOut || requestsOut))
            && (decision.Block? ==>
                  && (decision.reason == CooldownActive <==> cooling)
                  && (decision.reason == TokCapBreach <==> !cooling && tokensOut)
                  && (cooling ==> decision.blockedUntilMs == cooldownUntilMs.value)
                  && (!cooling ==> decision.blockedUntilMs == nowMs + 1000 * Max(settings.cooldownSeconds, 1))
                  && nowMs + 1000 * decision.retryAfterSeconds >= decision.blockedUntilMs
                  && nowMs + 1000 * (decision.retryAfterSeconds - 1) < decision.blockedUntilMs)
  {
  }

  /** Without an input estimate, an output request, a positive cap or the switch there is nothing to clamp. */
  lemma ClampNeedsAll(project: Project, settings: Settings, counters: Counters, request: Request,
                      cooldownUntilMs: Option<int>, nowMs: int)
    requires ValidLadder(settings.ladder)
    ensures Evaluate(project, settings, counters, request, cooldownUntilMs, nowMs).Clamp? ==>
              && project.protectEnabled && project.applyClamp && request.inputEstimate.Some?
              && request.maxOutput.Some? && request.maxOutput.value >= 1
              && project.maxTok.Some? && project.maxTok.value >= 1
  {
  }

  /** With the clamp on, a token cap and some threshold at or below the cap, every request that is let
      through gets an output that fits the cap, or one token. */
  lemma ClampFitsOrIsMinimal(project: Project, settings: Settings, counters: Counters, input: int, maxOutput: int,
                             cooldownUntilMs: Option<int>, nowMs: int)
    requires ValidLadder(settings.ladder) && maxOutput >= 1
    requires project.protectEnabled && project.applyClamp && project.maxTok.Some? && project.maxTok.value >= 1
    requires exists i :: 0 <= i < |settings.ladder.thresholds| && settings.ladder.thresholds[i] <= 1.0
    ensures var decision := Evaluate(project, settings, counters, Ask(input, maxOutput), cooldownUntilMs, nowMs);
            !decision.Block? ==> FitsOrMinimal(project.maxTok.value, counters.tokens, input,
                Permitted(decision, maxOutput))
  {
    var cap, used := project.maxTok.value, counters.tokens + Max(input, 0);
    PermittedOutput(project, settings, counters, input, maxOutput, cooldownUntilMs, nowMs);
    StageOrFits(settings.ladder, cap, used + maxOutput);
  }

  /** No stage means the projection is below the cap.  On a stage the recommendation itself respects what is
      left of the cap, whatever the ratio. */
  lemma StageOrFits(ladder: Ladder, cap: int, projected: int)
    requires ValidLadder(ladder) && cap >= 1
    requires exists i :: 0 <= i < |ladder.thresholds| && ladder.thresholds[i] <= 1.0
    ensures SelectedRatio(ladder, projected, cap).None? ==> projected < cap
  {
    var k :| 0 <= k < |ladder.thresholds| && ladder.thresholds[k] <= 1.0;
    var i := LastReachedStage(ladder, projected, cap);
    if i == -1 {
      NotReached(ladder.thresholds[k], projected, cap);
    }
  }

  lemma NotReached(threshold: real, projected: int, cap: int)
    requires cap >= 1 && threshold <= 1.0 && !Reached(threshold, projected, cap)
    ensures projected < cap
  {
    BelowCap(cap, threshold);
  }

  lemma BelowCap(cap: int, threshold: real)
    requires cap >= 1 && threshold <= 1.0
    ensures Trunc(cap as real * threshold) <= cap
  {
    TruncScale(cap, threshold, 1.0);
  }

  /** The guarantee over every project cap, counter and request. */
  ghost predicate AlwaysFitsOrMinimal(ladder: Ladder)
    requires ValidLadder(ladder)
  {
    forall cap: int, tokens: int, input: int, maxOutput: int | cap >= 1 && maxOutput >= 1 ::
      FitsFor(ladder, cap, tokens, input, maxOutput)
  }

  predicate FitsFor(ladder: Ladder, cap: int, tokens: int, input: int, maxOutput: int)
    requires ValidLadder(ladder)
  {
    var project := Project(true, None, Some(cap), false, true);
    var decision := Evaluate(project, Settings(ladder, 1, 1), Counters(0, tokens), Ask(input, maxOutput), None, 0);
    decision.Block? || FitsOrMinimal(cap, tokens, input, Permitted(decision, maxOutput))
  }

  function Lowest(thresholds: seq<real>): real
    requires thresholds != []
  {
    if |thresholds| == 1 then thresholds[0]
    else var rest := Lowest(thresholds[1..]); if thresholds[0] <= rest then thresholds[0] else rest
  }

  lemma {:induction false} LowestIsLeast(thresholds: seq<real>)
    requires thresholds != []
    ensures Lowest(thresholds) in thresholds
    ensures forall i | 0 <= i < |thresholds| :: Lowest(thresholds) <= thresholds[i]
  {
    if |thresholds| > 1 {
      LowestIsLeast(thresholds[1..]);
      forall i | 0 <= i < |thresholds| ensures Lowest(thresholds) <= thresholds[i] {
        if i > 0 {
          assert thresholds[i] == thresholds[1..][i-1];
        }
      }
    }
  }

  /** When every threshold lies above the cap, a large cap lets an oversized request through uncut. */
  lemma HighThresholdsFail(ladder: Ladder) returns (cap: int, maxOutput: int)
    requires ValidLadder(ladder)
    requires forall i | 0 <= i < |ladder.thresholds| :: ladder.thresholds[i] > 1.0
    ensures cap >= 1 && maxOutput >= 1 && !FitsFor(ladder, cap, 0, 0, maxOutput)
  {
    cap := 1;
    if ladder.thresholds != [] {
      LowestIsLeast(ladder.thresholds);
      cap := LargeCap(Lowest(ladder.thresholds));
    }
    maxOutput := cap + 1;
    forall i | 0 <= i < |ladder.thresholds| ensures !Reached(ladder.thresholds[i], cap + 1, cap) {
      FarAboveCap(cap, Lowest(ladder.thresholds), ladder.thresholds[i]);
    }
    NoStage(ladder, cap + 1, cap);
    var project := Project(true, None, Some(cap), false, true);
    PermittedOutput(project, Settings(ladder, 1, 1), Counters(0, 0), 0, maxOutput, None, 0);
  }

  lemma NoStage(ladder: Ladder, projected: int, cap: int)
    requires ValidLadder(ladder)
    requires forall i | 0 <= i < |ladder.thresholds| :: !Reached(ladder.thresholds[i], projected, cap)
    ensures SelectedRatio(ladder, projected, cap) == None
  {
    var i := LastReachedStage(ladder, projected, cap);
  }

  lemma LargeCap(threshold: real) returns (cap: int)
    requires threshold > 1.0
    ensures cap >= 1 && cap as real * (threshold - 1.0) >= 2.0
  {
    var excess := threshold - 1.0;
    cap := (2.0 / excess).Floor + 1;
    assert (2.0 / excess) * excess == 2.0;
    assert cap as real >= 2.0 / excess;
  }

  lemma FarAboveCap(cap: int, lowest: real, threshold: real)
    requires cap >= 1 && lowest <= threshold && cap as real * (lowest - 1.0) >= 2.0
    ensures !Reached(threshold, cap + 1, cap)
  {
    var c := cap as real;
    ProductSign(c, threshold - lowest);
    assert c * threshold == c + c * (lowest - 1.0) + c * (threshold - lowest);
    TruncMonotone((cap + 2) as real, c * threshold);
  }

  /** The exact condition, for every ladder that the service accepts: the guarantee holds on all inputs if and
      only if some threshold is at or below the cap. */
  lemma GuaranteeIffThresholdAtMostOne(ladder: Ladder)
    requires ValidLadder(ladder)
    ensures AlwaysFitsOrMinimal(ladder) <==> exists i :: 0 <= i < |ladder.thresholds| && ladder.thresholds[i] <= 1.0
  {
    if i :| 0 <= i < |ladder.thresholds| && ladder.thresholds[i] <= 1.0 {
      forall cap: int, tokens: int, input: int, maxOutput: int | cap >= 1 && maxOutput >= 1
        ensures FitsFor(ladder, cap, tokens, input, maxOutput)
      {
        ClampFitsOrIsMinimal(Project(true, None, Some(cap), false, true), Settings(ladder, 1, 1), Counters(0, tokens),
                             input, maxOutput, None, 0);
      }
    } else {
      var cap, maxOutput := HighThresholdsFail(ladder);
    }
  }

  // ---- antitone under pressure ----

  ghost predicate DescendingRatios(ladder: Ladder) {
    ValidLadder(ladder) && forall i, j | 0 <= i < j < |ladder.ratios| :: ladder.ratios[i] >= ladder.ratios[j]
  }

  predicate NonNegativeThresholds(ladder: Ladder) {
    forall i | 0 <= i < |ladder.thresholds| :: ladder.thresholds[i] >= 0.0
  }

  /** The first cap is at least as generous; no cap at all is the most generous. */
  predicate AtLeastAsGenerous(a: Option<int>, b: Option<int>) {
    a.None? || (b.Some? && a.value >= b.value)
  }

  lemma ReachedUnderPressure(threshold: real, projected: int, cap: int, projected': int, cap': int)
    requires threshold >= 0.0 && projected <= projected' && cap >= cap' && Reached(threshold, projected, cap)
    ensures Reached(threshold, projected', cap')
  {
    ScaleMonotone(cap', cap, threshold);
  }

  lemma StagesRise(ladder: Ladder, projected: int, cap: int, projected': int, cap': int)
    requires DescendingRatios(ladder) && NonNegativeThresholds(ladder)
    requires projected <= projected' && cap >= cap'
    requires SelectedRatio(ladder, projected, cap).Some?
    ensures SelectedRatio(ladder, projected', cap').Some?
    ensures SelectedRatio(ladder, projected', cap').value <= SelectedRatio(ladder, projected, cap).value
  {
    var i := LastReachedStage(ladder, projected, cap);
    var j := LastReachedStage(ladder, projected', cap');
    ReachedUnderPressure(ladder.thresholds[i], projected, cap, projected', cap');
    assert j >= i;
  }

  lemma RecommendedUnderPressure(maxOutput: int, ratio: real, ratio': real, available: int, available': int)
    requires maxOutput >= 0 && ratio' <= ratio && available' <= available
    ensures Recommended(maxOutput, ratio', available') <= Recommended(maxOutput, ratio, available)
  {
    TruncScale(maxOutput, ratio', ratio);
  }

  /** A block stays a block under more pressure. */
  lemma BlockPersists(project: Project, project': Project, settings: Settings, counters: Counters, counters': Counters,
                      request: Request, request': Request, cooldownUntilMs: Option<int>, nowMs: int)
    requires ValidLadder(settings.ladder)
    requires project' == project.(maxTok := project'.maxTok, maxReq := project'.maxReq)
    requires AtLeastAsGenerous(project.maxTok, project'.maxTok) && AtLeastAsGenerous(project.maxReq, project'.maxReq)
    requires counters.tokens <= counters'.tokens && counters.requests <= counters'.requests
    requires Evaluate(project, settings, counters, request, cooldownUntilMs, nowMs).Block?
    ensures Evaluate(project', settings, counters', request', cooldownUntilMs, nowMs).Block?
  {
  }

  lemma StagedUnderPressure(ladder: Ladder, used: int, cap: int, used': int, cap': int, maxOutput: int)
    requires DescendingRatios(ladder) && NonNegativeThresholds(ladder) && maxOutput >= 1
    requires used <= used' && cap' <= cap
    ensures StagedOutput(ladder, used', cap', maxOutput) <= StagedOutput(ladder, used, cap, maxOutput)
  {
    var ratio := SelectedRatio(ladder, used + maxOutput, cap);
    if ratio.Some? {
      StagesRise(ladder, used + maxOutput, cap, used' + maxOutput, cap');
      var ratio' := SelectedRatio(ladder, used' + maxOutput, cap');
      RecommendedUnderPressure(maxOutput, ratio.value, ratio'.value, cap - used, cap' - used');
    }
  }

  lemma ServedUnderPressure(project: Project, project': Project, settings: Settings, counters: Counters,
                            counters': Counters,
                            input: int, input': int, maxOutput: int, cooldownUntilMs: Option<int>, nowMs: int)
    requires DescendingRatios(settings.ladder) && NonNegativeThresholds(settings.ladder) && maxOutput >= 1
    requires project' == project.(maxTok := project'.maxTok, maxReq := project'.maxReq)
    requires AtLeastAsGenerous(project.maxTok, project'.maxTok)
    requires 0 <= counters.tokens <= counters'.tokens && input <= input'
    requires !Evaluate(project, settings, counters, Ask(input, maxOutput), cooldownUntilMs, nowMs).Block?
    requires !Evaluate(project', settings, counters', Ask(input', maxOutput), cooldownUntilMs, nowMs).Block?
    ensures Permitted(Evaluate(project', settings, counters', Ask(input', maxOutput), cooldownUntilMs, nowMs),
            maxOutput)
         <= Permitted(Evaluate(project, settings, counters, Ask(input, maxOutput), cooldownUntilMs, nowMs), maxOutput)
  {
    PermittedIsPositive(project', settings, counters', input', maxOutput, cooldownUntilMs, nowMs);
    if project.protectEnabled && project.applyClamp && project.maxTok.Some? {
      var cap, cap' := project.maxTok.value, project'.maxTok.value;
      var used, used' := counters.tokens + Max(input, 0), counters'.tokens + Max(input', 0);
      PermittedOutput(project, settings, counters, input, maxOutput, cooldownUntilMs, nowMs);
      PermittedOutput(project', settings, counters', input', maxOutput, cooldownUntilMs, nowMs);
      StagedUnderPressure(settings.ladder, used, cap, used', cap', maxOutput);
    }
  }

  /** More tokens or requests already used, a larger input, or a smaller cap never permit more output,
      across every stage boundary and up to the block. */
  lemma ClampIsAntitone(project: Project, project': Project, settings: Settings, counters: Counters,
                        counters': Counters,
                        input: int, input': int, maxOutput: int, cooldownUntilMs: Option<int>, nowMs: int)
    requires DescendingRatios(settings.ladder) && NonNegativeThresholds(settings.ladder) && maxOutput >= 1
    requires project' == project.(maxTok := project'.maxTok, maxReq := project'.maxReq)
    requires AtLeastAsGenerous(project.maxTok, project'.maxTok) && AtLeastAsGenerous(project.maxReq, project'.maxReq)
    requires 0 <= counters.tokens <= counters'.tokens && counters.requests <= counters'.requests && input <= input'
    ensures Permitted(Evaluate(project', settings, counters', Ask(input', maxOutput), cooldownUntilMs, nowMs),
            maxOutput)
         <= Permitted(Evaluate(project, settings, counters, Ask(input, maxOutput), cooldownUntilMs, nowMs), maxOutput)
  {
    var decision := Evaluate(project, settings, counters, Ask(input, maxOutput), cooldownUntilMs, nowMs);
    var decision' := Evaluate(project', settings, counters', Ask(input', maxOutput), cooldownUntilMs, nowMs);
    if decision.Block? {
      BlockPersists(project, project', settings, counters, counters', Ask(input, maxOutput), Ask(input', maxOutput),
          cooldownUntilMs, nowMs);
    } else if decision'.Block? {
      PermittedIsPositive(project, settings, counters, input, maxOutput, cooldownUntilMs, nowMs);
    } else {
      ServedUnderPressure(project, project', settings, counters, counters', input, input', maxOutput,
          cooldownUntilMs, nowMs);
    }
  }

  lemma PermittedIsPositive(project: Project, settings: Settings, counters: Counters, input: int, maxOutput: int,
                            cooldownUntilMs: Option<int>, nowMs: int)
    requires ValidLadder(settings.ladder) && maxOutput >= 1
    ensures var decision := Evaluate(project, settings, counters, Ask(input, maxOutput), cooldownUntilMs, nowMs);
            !decision.Block? ==> 1 <= Permitted(decision, maxOutput) <= maxOutput
  {
  }

  /** The stock configuration, six stages from 70% of the cap on. */
  const DEFAULT_LADDER := Ladder([0.70, 0.75, 0.80, 0.85, 0.90, 0.95], [0.90, 0.80, 0.70, 0.55, 0.40, 0.25])

  lemma DefaultLadderQualifies()
    ensures DescendingRatios(DEFAULT_LADDER) && NonNegativeThresholds(DEFAULT_LADDER)
    ensures forall i | 0 <= i < |DEFAULT_LADDER.ratios| :: 0.0 <= DEFAULT_LADDER.ratios[i] < 1.0
    ensures AlwaysFitsOrMinimal(DEFAULT_LADDER)
  {
    assert DEFAULT_LADDER.thresholds[0] <= 1.0;
    GuaranteeIffThresholdAtMostOne(DEFAULT_LADDER);
  }

  // ---- whole runs ----

  /** One preflight and, unless it is blocked, the ingest of the tokens actually used; or entries that
      leave the rolling window. */
  datatype Step =
    | Serve(input: int, maxOutput: int, used: int, cooldownUntilMs: Option<int>, nowMs: int)
    | Expire(requests: nat, tokens: nat)

  function Preflight(project: Project, settings: Settings, counters: Counters, step: Step): Decision
    requires ValidLadder(settings.ladder) && step.Serve?
  {
    Evaluate(project, settings, counters, Ask(step.input, step.maxOutput), step.cooldownUntilMs, step.nowMs)
  }

  /** The provider uses no more than the input estimate plus the permitted output. */
  predicate Honest(project: Project, settings: Settings, counters: Counters, step: Step)
    requires ValidLadder(settings.ladder)
  {
    step.Serve? ==>
      && step.maxOutput >= 1
      && var decision := Preflight(project, settings, counters, step);
         (!decision.Block? ==> step.used <= Max(step.input, 0) + Permitted(decision, step.maxOutput))
  }

  function Apply(project: Project, settings: Settings, counters: Counters, step: Step): Counters
    requires ValidLadder(settings.ladder)
  {
    match step
    case Serve(_, _, used, _, _) =>
      if Preflight(project, settings, counters, step).Block? then counters
      else Counters(counters.requests + 1, counters.tokens + used)
    case Expire(requests, tokens) => Counters(counters.requests - requests, counters.tokens - tokens)
  }

  function Run(project: Project, settings: Settings, steps: seq<Step>): Counters
    requires ValidLadder(settings.ladder)
  {
    if steps == [] then Counters(0, 0)
    else Apply(project, settings, Run(project, settings, steps[..|steps| - 1]), steps[|steps| - 1])
  }

  ghost predicate HonestRun(project: Project, settings: Settings, steps: seq<Step>)
    requires ValidLadder(settings.ladder)
  {
    steps != [] ==>
      && HonestRun(project, settings, steps[..|steps| - 1])
      && Honest(project, settings, Run(project, settings, steps[..|steps| - 1]), steps[|steps| - 1])
  }

  /** Over any run from zero the token counter stays within the cap plus the largest input estimate, and
      the request counter within the request cap. */
  lemma {:induction false} RunBudget(project: Project, settings: Settings, steps: seq<Step>, largestInput: nat)
    requires ValidLadder(settings.ladder)
    requires exists i :: 0 <= i < |settings.ladder.thresholds| && settings.ladder.thresholds[i] <= 1.0
    requires project.protectEnabled && project.applyClamp && project.maxTok.Some? && project.maxTok.value >= 1
    requires forall i | 0 <= i < |steps| && steps[i].Serve? :: steps[i].input <= largestInput
    requires HonestRun(project, settings, steps)
    ensures Run(project, settings, steps).tokens <= project.maxTok.value + largestInput
    ensures project.maxReq.Some? ==> Run(project, settings, steps).requests <= Max(project.maxReq.value, 0)
  {
    if steps == [] {
    } else {
      var before, step := steps[..|steps| - 1], steps[|steps| - 1];
      RunBudget(project, settings, before, largestInput);
      var counters := Run(project, settings, before);
      if step.Serve? {
        ClampFitsOrIsMinimal(project, settings, counters, step.input, step.maxOutput, step.cooldownUntilMs, step.nowMs);
        assert steps[|steps| - 1].input <= largestInput;
      }
    }
  }
}
