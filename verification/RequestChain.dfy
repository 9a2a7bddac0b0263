/** The dashboard's API client: protected requests run one at a time behind a chain of promises, and
    expired sessions are renewed by a single refresh that every waiting request shares.  A step is
    everything between two awaits. */
module RequestChain {
  import opened Text

  const RECENT_REFRESH_WINDOW_MS := 1500

  /** Routes outside /api/v1/auth/ are protected; among the auth routes only "me" may refresh and retry. */
  datatype Kind = Protected | AuthMe | AuthOther

  /** fetch either rejects or answers; the body of an answer may fail to parse. */
  datatype Response = NetworkError | Answered(status: int, parses: bool)

  datatype Outcome = Returned | Threw | Unauthorized

  predicate Is401(response: Response) {
    response.Answered? && response.status == 401
  }

  /** How a request ends on a response that is not a 401. */
  function Conclude(response: Response): Outcome {
    if response.Answered? && 200 <= response.status < 300 && response.parses then Returned else Threw
  }

  // ---- one request with nobody else around ----

  /** What the network would answer to the fetches of one request, and the clock at the answers. */
  datatype Script = Script(
    first: Response, firstMs: int, recent: Response, refreshOk: bool, refreshMs: int, retry: Response)

  predicate UsesRecentWindow(kind: Kind, script: Script, lastRefreshMs: int) {
    Is401(script.first) && !kind.AuthOther? && script.firstMs - lastRefreshMs <= RECENT_REFRESH_WINDOW_MS
  }

  predicate NeedsRefresh(kind: Kind, script: Script, lastRefreshMs: int) {
    Is401(script.first) && !kind.AuthOther? && (UsesRecentWindow(kind, script, lastRefreshMs) ==> Is401(script.recent))
  }

  function Alone(kind: Kind, script: Script, lastRefreshMs: int): Outcome {
    if !Is401(script.first) then Conclude(script.first)
    else if NeedsRefresh(kind, script, lastRefreshMs) then
      if script.refreshOk && !Is401(script.retry) then Conclude(script.retry) else Unauthorized
    else if kind.AuthOther? then Unauthorized
    else Conclude(script.recent)
  }

  function LastRefreshAfter(kind: Kind, script: Script, lastRefreshMs: int): int {
    if NeedsRefresh(kind, script, lastRefreshMs) && script.refreshOk then script.refreshMs else lastRefreshMs
  }

  class ApiClient {
    var refreshing: bool
    var chainReleased: bool
    var lastRefreshMs: int

    constructor ()
      ensures !refreshing && chainReleased && lastRefreshMs == 0
    {
      refreshing, chainReleased, lastRefreshMs := false, true, 0;
    }

    method RefreshSession(script: Script) returns (ok: bool)
      requires !refreshing
      modifies this`refreshing, this`lastRefreshMs
      ensures ok == script.refreshOk && !refreshing
      ensures lastRefreshMs == if ok then script.refreshMs else old(lastRefreshMs)
    {
      refreshing := true;
      ok := script.refreshOk;
      if ok {
        lastRefreshMs := script.refreshMs;
      }
      refreshing := false;
    }

    method RequestInternal(kind: Kind, script: Script) returns (outcome: Outcome)
      requires !refreshing
      modifies this`refreshing, this`lastRefreshMs
      ensures outcome == Alone(kind, script, old(lastRefreshMs)) && !refreshing
      ensures lastRefreshMs == LastRefreshAfter(kind, script, old(lastRefreshMs))
    {
      if !Is401(script.first) {
        return Conclude(script.first);
      }
      if kind != AuthOther {
        if script.firstMs - lastRefreshMs <= RECENT_REFRESH_WINDOW_MS {
          if !Is401(script.recent) {
            return Conclude(script.recent);
          }
        }
        var refreshed := RefreshSession(script);
        if refreshed && !Is401(script.retry) {
          return Conclude(script.retry);
        }
      }
      return Unauthorized;
    }

    /** Whatever the outcome, the chain is released for the next protected request. */
    method RequestOne(kind: Kind, script: Script) returns (outcome: Outcome)
      requires !refreshing && chainReleased
      modifies this
      ensures outcome == Alone(kind, script, old(lastRefreshMs)) && !refreshing && chainReleased
      ensures lastRefreshMs == LastRefreshAfter(kind, script, old(lastRefreshMs))
    {
      if kind == Protected {
        chainReleased := false;
        outcome := RequestInternal(kind, script);
        chainReleased := true;
      } else {
        outcome := RequestInternal(kind, script);
      }
    }
  }

  // ---- interleavings ----

  datatype Phase = First | Recent | Retry

  datatype Pc =
    | Queued
    | Barrier(phase: Phase, refresh: nat)
    | Fetching(phase: Phase)
    | Refreshing(refresh: nat)
    | Settled(outcome: Outcome)
    | Done(outcome: Outcome)

  /** The refresh a request joined and the result it was given. */
  datatype Seen = Seen(refresh: nat, ok: bool)

  /** `prior` is the request whose promise this one awaits; it is resolved once that request is Done.  `heard` is
      the latest response to one of its own fetches. */
  datatype Request = Request(kind: Kind, prior: Option<nat>, pc: Pc, seen: Option<Seen>, heard: Option<Response>)

  /** Requests are numbered in call order, refreshes in starting order; a refresh without a result is pending. */
  datatype State = State(
    chain: Option<nat>, refreshInFlight: Option<nat>, lastRefreshMs: int,
    requests: seq<Request>, refreshes: seq<Option<bool>>)

  datatype Step =
    | Call(kind: Kind)
    | Resume(request: nat)
    | Respond(request: nat, response: Response, nowMs: int)
    | RefreshSettles(refresh: nat, ok: bool, nowMs: int)

  const INITIAL := State(None, None, 0, [], [])

  function Move(s: State, i: nat, pc: Pc): State
    requires i < |s.requests|
  {
    s.(requests := s.requests[i := s.requests[i].(pc := pc)])
  }

  /** Fetch, after waiting for a refresh in flight if the route is protected. */
  function Fetch(s: State, i: nat, phase: Phase): State
    requires i < |s.requests|
  {
    var waits := s.requests[i].kind.Protected? && s.refreshInFlight.Some?;
    Move(s, i, if waits then Barrier(phase, s.refreshInFlight.value) else Fetching(phase))
  }

  /** Join the refresh in flight, or start one. */
  function Refresh(s: State, i: nat): State
    requires i < |s.requests|
  {
    if s.refreshInFlight.Some? then Move(s, i, Refreshing(s.refreshInFlight.value))
    else Move(s.(refreshInFlight := Some(|s.refreshes|), refreshes := s.refreshes + [None]), i,
        Refreshing(|s.refreshes|))
  }

  function AfterCall(s: State, kind: Kind): State {
    var i := |s.requests|;
    if kind.Protected? then s.(chain := Some(i), requests := s.requests + [Request(kind, s.chain, Queued, None, None)])
    else Fetch(s.(requests := s.requests + [Request(kind, None, Queued, None, None)]), i, First)
  }

  predicate Resolved(s: State, refresh: nat) {
    refresh < |s.refreshes| && s.refreshes[refresh].Some?
  }

  predicate Released(s: State, prior: Option<nat>) {
    prior.None? || (prior.value < |s.requests| && s.requests[prior.value].pc.Done?)
  }

  function AfterResume(s: State, i: nat): State {
    if i >= |s.requests| then s
    else
      match s.requests[i].pc
      case Queued => if Released(s, s.requests[i].prior) then Fetch(s, i, First) else s
      case Barrier(phase, r) => if Resolved(s, r) then Move(s, i, Fetching(phase)) else s
      case Refreshing(r) =>
        if !Resolved(s, r) then s
        else
          var ok := s.refreshes[r].value;
          var seen := s.(requests := s.requests[i := s.requests[i].(seen := Some(Seen(r, ok)))]);
          if ok then Fetch(seen, i, Retry) else Move(seen, i, Settled(Unauthorized))
      case Settled(outcome) => Move(s, i, Done(outcome))
      case _ => s
  }

  function AfterRespond(s: State, i: nat, response: Response, nowMs: int): State {
    if i >= |s.requests| || !s.requests[i].pc.Fetching? then s
    else
      var heard := s.(requests := s.requests[i := s.requests[i].(heard := Some(response))]);
      if !Is401(response) then Move(heard, i, Settled(Conclude(response)))
      else
        match s.requests[i].pc.phase
        case First =>
          if s.requests[i].kind.AuthOther? then Move(heard, i, Settled(Unauthorized))
          else if nowMs - s.lastRefreshMs <= RECENT_REFRESH_WINDOW_MS then Fetch(heard, i, Recent)
          else Refresh(heard, i)
        case Recent => Refresh(heard, i)
        case Retry => Move(heard, i, Settled(Unauthorized))
  }

  function AfterRefresh(s: State, r: nat, ok: bool, nowMs: int): State {
    if r >= |s.refreshes| || s.refreshes[r].Some? then s
    else s.(refreshInFlight := None, refreshes := s.refreshes[r := Some(ok)],
            lastRefreshMs := if ok then nowMs else s.lastRefreshMs)
  }

  /** A step that is not possible leaves the state unchanged. */
  function Next(s: State, step: Step): State {
    match step
    case Call(kind) => AfterCall(s, kind)
    case Resume(i) => AfterResume(s, i)
    case Respond(i, response, nowMs) => AfterRespond(s, i, response, nowMs)
    case RefreshSettles(r, ok, nowMs) => AfterRefresh(s, r, ok, nowMs)
  }

  function Run(from: State, steps: seq<Step>): State
    decreases |steps|
  {
    if steps == [] then from else Next(Run(from, steps[..|steps| - 1]), steps[|steps| - 1])
  }

  // ---- the invariant ----

  function LastProtected(requests: seq<Request>): Option<nat> {
    if requests == [] then None
    else if requests[|requests| - 1].kind.Protected? then Some(|requests| - 1)
    else LastProtected(requests[..|requests| - 1])
  }

  /** Each protected request waits for the protected request called just before it. */
  ghost predicate Linked(s: State) {
    && s.chain == LastProtected(s.requests)
    && (forall i | 0 <= i < |s.requests| && s.requests[i].kind.Protected? ::
          s.requests[i].prior == LastProtected(s.requests[..i]))
  }

  predicate Running(r: Request) {
    r.kind.Protected? && !r.pc.Queued? && !r.pc.Done?
  }

  /** Once a protected request has started, every protected request called before it is over. */
  ghost predicate InCallOrder(s: State) {
    forall i, j | 0 <= j < i < |s.requests| && s.requests[i].kind.Protected? && s.requests[j].kind.Protected?
        && !s.requests[i].pc.Queued? ::
      s.requests[j].pc.Done?
  }

  /** Exactly the refresh in flight, if any, has no result yet. */
  ghost predicate SingleFlight(s: State) {
    && (forall r | 0 <= r < |s.refreshes| :: s.refreshes[r].None? <==> s.refreshInFlight == Some(r))
    && (s.refreshInFlight.Some? ==> s.refreshInFlight.value < |s.refreshes|)
  }

  /** A request ends as the last response to its own fetches says: parsed and successful, a 401, or anything else. */
  predicate OutcomeFits(outcome: Outcome, heard: Response) {
    && (outcome == Returned <==> heard.Answered? && 200 <= heard.status <= 299 && heard.parses)
    && (outcome == Unauthorized <==> heard.Answered? && heard.status == 401)
  }

  ghost predicate WellPlaced(s: State, r: Request) {
    && (r.pc.Settled? || r.pc.Done? ==> r.heard.Some? && OutcomeFits(r.pc.outcome, r.heard.value))
    && (r.pc.Refreshing? ==> r.heard.Some? && r.heard.value.Answered? && r.heard.value.status == 401)
    && (r.pc.Queued? || r.pc.Barrier? ==> r.kind.Protected?)
    && (r.pc.Barrier? || r.pc.Refreshing? ==> r.pc.refresh < |s.refreshes|)
    && (r.seen.Some? ==>
          r.seen.value.refresh < |s.refreshes| && s.refreshes[r.seen.value.refresh] == Some(r.seen.value.ok))
    && (r.pc.Barrier? || r.pc.Fetching? ==> (r.pc.phase.Retry? <==> r.seen.Some?) && (r.seen.Some? ==> r.seen.value.ok))
    && (r.pc.Queued? || r.pc.Refreshing? ==> r.seen.None?)
    && (r.pc == Settled(Unauthorized) || r.pc == Done(Unauthorized) ==> r.kind.AuthOther? || r.seen.Some?)
    && (r.kind.AuthOther? ==> !r.pc.Refreshing? && r.seen.None? && (r.pc.Fetching? ==> r.pc.phase.First?))
  }

  ghost predicate Inv(s: State) {
    && Linked(s) && InCallOrder(s) && SingleFlight(s)
    && forall i | 0 <= i < |s.requests| :: WellPlaced(s, s.requests[i])
  }

  lemma {:induction false} LastProtectedIsLatest(requests: seq<Request>)
    ensures var last := LastProtected(requests);
            && (last.Some? ==> last.value < |requests| && requests[last.value].kind.Protected?)
            && (forall j | 0 <= j < |requests| && requests[j].kind.Protected? :: last.Some? && j <= last.value)
  {
    if requests == [] {
    } else {
      LastProtectedIsLatest(requests[..|requests| - 1]);
    }
  }

  lemma {:induction false} LastProtectedIgnoresProgress(requests: seq<Request>, i: nat, r: Request)
    requires i < |requests| && r.kind == requests[i].kind
    ensures LastProtected(requests[i := r]) == LastProtected(requests)
  {
    var n := |requests| - 1;
    if i < n {
      LastProtectedIgnoresProgress(requests[..n], i, r);
      assert requests[i := r][..n] == requests[..n][i := r];
    } else {
      assert requests[i := r][..n] == requests[..n];
    }
  }

  lemma ProgressKeepsLinks(s: State, s': State, i: nat, r: Request)
    requires Linked(s) && i < |s.requests| && r.kind == s.requests[i].kind && r.prior == s.requests[i].prior
    requires s'.requests == s.requests[i := r] && s'.chain == s.chain
    ensures Linked(s')
  {
    LastProtectedIgnoresProgress(s.requests, i, r);
    forall j | 0 <= j < |s'.requests| && s'.requests[j].kind.Protected?
      ensures s'.requests[j].prior == LastProtected(s'.requests[..j]) {
      if i < j {
        LastProtectedIgnoresProgress(s.requests[..j], i, r);
        assert s'.requests[..j] == s.requests[..j][i := r];
      } else {
        assert s'.requests[..j] == s.requests[..j];
      }
    }
  }

  /** Results already given stay; refreshes may be added. */
  ghost predicate KeepsResults(s: State, s': State) {
    && |s.refreshes| <= |s'.refreshes|
    && forall r | 0 <= r < |s.refreshes| && s.refreshes[r].Some? :: s'.refreshes[r] == s.refreshes[r]
  }

  lemma ResultsKeepPlaces(s: State, s': State, r: Request)
    requires WellPlaced(s, r) && KeepsResults(s, s')
    ensures WellPlaced(s', r)
  {
  }

  predicate EarlierOver(s: State, i: nat) {
    forall j | 0 <= j < i && j < |s.requests| && s.requests[j].kind.Protected? :: s.requests[j].pc.Done?
  }

  lemma ProgressKeepsOrder(s: State, s': State, i: nat, r: Request)
    requires InCallOrder(s) && i < |s.requests| && s'.requests == s.requests[i := r] && r.kind == s.requests[i].kind
    requires !s.requests[i].pc.Done? && !r.pc.Queued?
    requires r.kind.Protected? ==> EarlierOver(s, i)
    ensures InCallOrder(s')
  {
  }

  lemma ProgressKeepsInv(s: State, s': State, i: nat, r: Request)
    requires Inv(s) && i < |s.requests| && s'.requests == s.requests[i := r] && s'.chain == s.chain
    requires r.kind == s.requests[i].kind && r.prior == s.requests[i].prior
    requires !s.requests[i].pc.Done? && !r.pc.Queued?
    requires r.kind.Protected? ==> EarlierOver(s, i)
    requires WellPlaced(s', r) && SingleFlight(s') && KeepsResults(s, s')
    ensures Inv(s')
  {
    ProgressKeepsLinks(s, s', i, r);
    ProgressKeepsOrder(s, s', i, r);
    forall j | 0 <= j < |s'.requests| ensures WellPlaced(s', s'.requests[j]) {
      if j != i {
        ResultsKeepPlaces(s, s', s.requests[j]);
      }
    }
  }

  lemma AppendKeepsLinks(s: State, s': State, r: Request)
    requires Linked(s) && s'.requests == s.requests + [r]
    requires r.kind.Protected? ==> r.prior == s.chain && s'.chain == Some(|s.requests|)
    requires !r.kind.Protected? ==> s'.chain == s.chain
    ensures Linked(s')
  {
    var n := |s.requests|;
    assert s'.requests[..n] == s.requests;
    forall j | 0 <= j < n && s.requests[j].kind.Protected?
      ensures s'.requests[j].prior == LastProtected(s'.requests[..j]) {
      assert s'.requests[..j] == s.requests[..j];
    }
  }

  lemma CallAppends(s: State, kind: Kind)
    ensures var s' := AfterCall(s, kind);
            && s'.refreshes == s.refreshes && s'.refreshInFlight == s.refreshInFlight
            && s'.chain == (if kind.Protected? then Some(|s.requests|) else s.chain)
            && s'.requests == s.requests + [if kind.Protected? then Request(kind, s.chain, Queued, None, None)
                                            else Request(kind, None, Fetching(First), None, None)]
  {
  }

  lemma CallKeepsInv(s: State, kind: Kind)
    requires Inv(s)
    ensures Inv(AfterCall(s, kind))
  {
    var s' := AfterCall(s, kind);
    CallAppends(s, kind);
    AppendKeepsLinks(s, s', s'.requests[|s.requests|]);
    forall j | 0 <= j < |s.requests| ensures WellPlaced(s', s'.requests[j]) {
      ResultsKeepPlaces(s, s', s.requests[j]);
    }
  }

  lemma ReleasedIsEarliest(s: State, i: nat)
    requires Inv(s) && i < |s.requests| && s.requests[i].kind.Protected?
    requires s.requests[i].pc.Queued? ==> Released(s, s.requests[i].prior)
    ensures EarlierOver(s, i)
  {
    LastProtectedIsLatest(s.requests[..i]);
    forall j | 0 <= j < i && s.requests[j].kind.Protected? ensures s.requests[j].pc.Done? {
      assert s.requests[..i][j] == s.requests[j];
      assert s.requests[..i][LastProtected(s.requests[..i]).value] == s.requests[LastProtected(s.requests[..i]).value];
    }
  }

  lemma ResumeKeepsInv(s: State, i: nat)
    requires Inv(s)
    ensures Inv(AfterResume(s, i))
  {
    var s' := AfterResume(s, i);
    if s' != s {
      if s.requests[i].kind.Protected? {
        ReleasedIsEarliest(s, i);
      }
      assert WellPlaced(s, s.requests[i]);
      assert s'.requests == s.requests[i := s'.requests[i]];
      ProgressKeepsInv(s, s', i, s'.requests[i]);
    }
  }

  lemma ConcludeFits(response: Response)
    requires !Is401(response)
    ensures OutcomeFits(Conclude(response), response)
  {
  }

  lemma RespondPlaces(s: State, i: nat, response: Response, nowMs: int)
    requires SingleFlight(s) && AfterRespond(s, i, response, nowMs) != s && WellPlaced(s, s.requests[i])
    ensures var s' := AfterRespond(s, i, response, nowMs);
            && |s'.requests| == |s.requests| && s'.requests == s.requests[i := s'.requests[i]]
            && s'.chain == s.chain && SingleFlight(s') && KeepsResults(s, s')
            && s'.requests[i].kind == s.requests[i].kind && s'.requests[i].prior == s.requests[i].prior
            && !s'.requests[i].pc.Queued?
  {
  }

  lemma RespondedIsPlaced(s: State, i: nat, response: Response, nowMs: int)
    requires SingleFlight(s) && AfterRespond(s, i, response, nowMs) != s && WellPlaced(s, s.requests[i])
    ensures i < |AfterRespond(s, i, response, nowMs).requests|
    ensures WellPlaced(AfterRespond(s, i, response, nowMs), AfterRespond(s, i, response, nowMs).requests[i])
  {
    if !Is401(response) {
      ConcludeFits(response);
    }
  }

  lemma RespondKeepsInv(s: State, i: nat, response: Response, nowMs: int)
    requires Inv(s)
    ensures Inv(AfterRespond(s, i, response, nowMs))
  {
    var s' := AfterRespond(s, i, response, nowMs);
    if s' != s {
      if s.requests[i].kind.Protected? {
        ReleasedIsEarliest(s, i);
      }
      assert WellPlaced(s, s.requests[i]);
      RespondPlaces(s, i, response, nowMs);
      RespondedIsPlaced(s, i, response, nowMs);
      ProgressKeepsInv(s, s', i, s'.requests[i]);
    }
  }

  lemma SettleKeepsInv(s: State, r: nat, ok: bool, nowMs: int)
    requires Inv(s)
    ensures Inv(AfterRefresh(s, r, ok, nowMs))
  {
    var s' := AfterRefresh(s, r, ok, nowMs);
    forall j | 0 <= j < |s'.requests| ensures WellPlaced(s', s'.requests[j]) {
      ResultsKeepPlaces(s, s', s.requests[j]);
    }
  }

  lemma StepKeepsInv(s: State, step: Step)
    requires Inv(s)
    ensures Inv(Next(s, step))
  {
    match step
    case Call(kind) => CallKeepsInv(s, kind);
    case Resume(i) => ResumeKeepsInv(s, i);
    case Respond(i, response, nowMs) => RespondKeepsInv(s, i, response, nowMs);
    case RefreshSettles(r, ok, nowMs) => SettleKeepsInv(s, r, ok, nowMs);
  }

  lemma {:induction false} RunKeepsInv(steps: seq<Step>)
    ensures Inv(Run(INITIAL, steps))
  {
    if steps == [] {
    } else {
      RunKeepsInv(steps[..|steps| - 1]);
      StepKeepsInv(Run(INITIAL, steps[..|steps| - 1]), steps[|steps| - 1]);
    }
  }

  // ---- safety ----

  /** At most one protected task runs, and it is the earliest called one that is not over. */
  lemma OneProtectedTask(steps: seq<Step>, i: nat, j: nat)
    requires var s := Run(INITIAL, steps); i < |s.requests| && j < |s.requests| && Running(s.requests[i])
    ensures var s := Run(INITIAL, steps);
            && (Running(s.requests[j]) ==> i == j)
            && (s.requests[j].kind.Protected? && j < i ==> s.requests[j].pc.Done?)
            && (s.requests[j].kind.Protected? && i < j ==> s.requests[j].pc.Queued?)
  {
    RunKeepsInv(steps);
  }

  /** However its task ended, a finishing request releases exactly the next protected request. */
  lemma FinishReleasesSuccessor(steps: seq<Step>, i: nat, j: nat)
    requires var s := Run(INITIAL, steps);
             && i < j < |s.requests| && s.requests[i].kind.Protected? && s.requests[j].kind.Protected?
             && s.requests[i].pc.Settled?
    ensures var s := Run(INITIAL, steps);
            var after := Next(s, Resume(i));
            && Next(s, Resume(j)) == s
            && after.requests[i].pc == Done(s.requests[i].pc.outcome)
            && (!Next(after, Resume(j)).requests[j].pc.Queued?
                <==> forall k | i < k < j :: !s.requests[k].kind.Protected?)
  {
    RunKeepsInv(steps);
    var s := Run(INITIAL, steps);
    var after := Next(s, Resume(i));
    LastProtectedIsLatest(s.requests[..j]);
    assert s.requests[..j][i] == s.requests[i];
    var p := s.requests[j].prior.value;
    assert s.requests[..j][p] == s.requests[p];
    forall k | i < k < j && s.requests[k].kind.Protected? ensures k <= p {
      assert s.requests[..j][k] == s.requests[k];
    }
  }

  /** In every interleaving a request ends as its own last response says. */
  lemma OutcomeIsLastResponse(steps: seq<Step>, i: nat)
    requires var s := Run(INITIAL, steps); i < |s.requests| && s.requests[i].pc.Done?
    ensures var r := Run(INITIAL, steps).requests[i];
            && r.heard.Some?
            && (r.pc.outcome == Returned <==>
                  r.heard.value.Answered? && 200 <= r.heard.value.status <= 299 && r.heard.value.parses)
            && (r.pc.outcome == Unauthorized <==> r.heard.value.Answered? && r.heard.value.status == 401)
  {
    RunKeepsInv(steps);
    assert WellPlaced(Run(INITIAL, steps), Run(INITIAL, steps).requests[i]);
  }

  /** At most one refresh is pending, requests that joined the same refresh were given the same result, and a
      session that may be renewed is reported lost only after a refresh. */
  lemma RefreshIsShared(steps: seq<Step>)
    ensures var s := Run(INITIAL, steps);
            && (forall r, q | 0 <= r < |s.refreshes| && 0 <= q < |s.refreshes| && s.refreshes[r].None?
                && s.refreshes[q].None? :: r == q)
            && (forall i, j | 0 <= i < |s.requests| && 0 <= j < |s.requests| && s.requests[i].seen.Some?
                && s.requests[j].seen.Some?
                  && s.requests[i].seen.value.refresh == s.requests[j].seen.value.refresh ::
                  s.requests[i].seen == s.requests[j].seen)
            && (forall i | 0 <= i < |s.requests| && s.requests[i].pc == Done(Unauthorized)
                && !s.requests[i].kind.AuthOther? ::
                  s.requests[i].seen.Some?)
  {
    RunKeepsInv(steps);
    var s := Run(INITIAL, steps);
    forall i, j | 0 <= i < |s.requests| && 0 <= j < |s.requests| && s.requests[i].seen.Some? && s.requests[j].seen.Some?
                  && s.requests[i].seen.value.refresh == s.requests[j].seen.value.refresh
      ensures s.requests[i].seen == s.requests[j].seen {
      assert WellPlaced(s, s.requests[i]) && WellPlaced(s, s.requests[j]);
    }
    forall i | 0 <= i < |s.requests| && s.requests[i].pc == Done(Unauthorized) && !s.requests[i].kind.AuthOther?
      ensures s.requests[i].seen.Some? {
      assert WellPlaced(s, s.requests[i]);
    }
  }

  // ---- no deadlock ----

  /** Follow what a request waits for to something that can move: the chain only leads to earlier requests,
      and a refresh waits for nothing but its own answer. */
  function Unblock(s: State, i: nat): Step
    requires i < |s.requests|
    decreases i
  {
    var r := s.requests[i];
    match r.pc
    case Queued => if Released(s, r.prior) || r.prior.value >= i then Resume(i) else Unblock(s, r.prior.value)
    case Barrier(_, refresh) => if Resolved(s, refresh) then Resume(i) else RefreshSettles(refresh, false, 0)
    case Refreshing(refresh) => if Resolved(s, refresh) then Resume(i) else RefreshSettles(refresh, false, 0)
    case Fetching(_) => Respond(i, NetworkError, 0)
    case _ => Resume(i)
  }

  /** While any request is unfinished, some step other than a new call can be taken. */
  lemma {:induction false} NoDeadlock(s: State, i: nat)
    requires Inv(s) && i < |s.requests| && !s.requests[i].pc.Done?
    ensures !Unblock(s, i).Call? && Next(s, Unblock(s, i)) != s
    decreases i
  {
    var r := s.requests[i];
    assert WellPlaced(s, r);
    if r.pc.Queued? && !Released(s, r.prior) {
      LastProtectedIsLatest(s.requests[..i]);
      NoDeadlock(s, r.prior.value);
    } else if r.pc.Queued? {
      assert Next(s, Resume(i)).requests[i] != r;
    } else if (r.pc.Barrier? || r.pc.Refreshing?) && !Resolved(s, r.pc.refresh) {
      assert Next(s, Unblock(s, i)).refreshes[r.pc.refresh] != s.refreshes[r.pc.refresh];
    } else {
      assert Next(s, Unblock(s, i)).requests[i].pc != r.pc;
    }
  }

  // ---- every call ends ----

  function PhaseRank(phase: Phase): nat {
    match phase case First => 8 case Recent => 6 case Retry => 2
  }

  /** Steps a request may still need, counting the refresh it may start. */
  function Rank(pc: Pc): nat {
    match pc
    case Queued => 10
    case Barrier(phase, _) => PhaseRank(phase) + 1
    case Fetching(phase) => PhaseRank(phase)
    case Refreshing(_) => 4
    case Settled(_) => 1
    case Done(_) => 0
  }

  function Ranks(requests: seq<Request>): nat {
    if requests == [] then 0 else Ranks(requests[..|requests| - 1]) + Rank(requests[|requests| - 1].pc)
  }

  function Work(s: State): nat {
    Ranks(s.requests) + if s.refreshInFlight.Some? then 1 else 0
  }

  lemma {:induction false} RanksAfterChange(requests: seq<Request>, i: nat, r: Request)
    requires i < |requests|
    ensures Ranks(requests[i := r]) == Ranks(requests) - Rank(requests[i].pc) + Rank(r.pc)
  {
    var n := |requests| - 1;
    if i < n {
      RanksAfterChange(requests[..n], i, r);
      assert requests[i := r][..n] == requests[..n][i := r];
    } else {
      assert requests[i := r][..n] == requests[..n];
    }
  }

  lemma CallAddsWork(s: State, kind: Kind)
    requires Inv(s)
    ensures Work(AfterCall(s, kind)) <= Work(s) + 10
  {
    CallAppends(s, kind);
    assert AfterCall(s, kind).requests[..|s.requests|] == s.requests;
  }

  lemma ResumeLowersRank(s: State, i: nat)
    requires AfterResume(s, i) != s
    ensures i < |s.requests| == |AfterResume(s, i).requests|
    ensures AfterResume(s, i).requests == s.requests[i := AfterResume(s, i).requests[i]]
    ensures Rank(AfterResume(s, i).requests[i].pc) < Rank(s.requests[i].pc)
    ensures AfterResume(s, i).refreshInFlight == s.refreshInFlight
  {
  }

  lemma ResumeTakesWork(s: State, i: nat)
    requires AfterResume(s, i) != s
    ensures Work(AfterResume(s, i)) < Work(s)
  {
    ResumeLowersRank(s, i);
    RanksAfterChange(s.requests, i, AfterResume(s, i).requests[i]);
  }

  lemma RespondLowersRank(s: State, i: nat, response: Response, nowMs: int)
    requires AfterRespond(s, i, response, nowMs) != s
    ensures var s' := AfterRespond(s, i, response, nowMs);
            && i < |s.requests| == |s'.requests|
            && s'.requests == s.requests[i := s'.requests[i]]
            && Rank(s'.requests[i].pc) + (if s'.refreshInFlight != s.refreshInFlight then 1 else 0)
               < Rank(s.requests[i].pc)
            && (s.refreshInFlight.Some? ==> s'.refreshInFlight == s.refreshInFlight)
  {
  }

  lemma RespondTakesWork(s: State, i: nat, response: Response, nowMs: int)
    requires AfterRespond(s, i, response, nowMs) != s
    ensures Work(AfterRespond(s, i, response, nowMs)) < Work(s)
  {
    RespondLowersRank(s, i, response, nowMs);
    RanksAfterChange(s.requests, i, AfterRespond(s, i, response, nowMs).requests[i]);
  }

  lemma StepTakesWork(s: State, step: Step)
    requires Inv(s)
    ensures step.Call? ==> Work(Next(s, step)) <= Work(s) + 10
    ensures !step.Call? && Next(s, step) != s ==> Work(Next(s, step)) < Work(s)
  {
    if Next(s, step) != s {
      match step
      case Call(kind) => CallAddsWork(s, kind);
      case Resume(i) => ResumeTakesWork(s, i);
      case Respond(i, response, nowMs) => RespondTakesWork(s, i, response, nowMs);
      case RefreshSettles(_, _, _) =>
    }
  }

  /** Steps of a run that change something and are not new calls. */
  function Moves(steps: seq<Step>): nat {
    if steps == [] then 0
    else
      var before, last := Run(INITIAL, steps[..|steps| - 1]), steps[|steps| - 1];
      Moves(steps[..|steps| - 1]) + if !last.Call? && Next(before, last) != before then 1 else 0
  }

  /** Only a new call can change the state. */
  ghost predicate Stuck(s: State) {
    forall step: Step :: step.Call? || Next(s, step) == s
  }

  predicate Finished(s: State) {
    forall i | 0 <= i < |s.requests| :: s.requests[i].pc.Done?
  }

  lemma StuckMeansFinished(s: State)
    requires Inv(s) && Stuck(s)
    ensures Finished(s)
  {
    forall i | 0 <= i < |s.requests| ensures s.requests[i].pc.Done? {
      if !s.requests[i].pc.Done? {
        NoDeadlock(s, i);
      }
    }
  }

  lemma {:induction false} MovesPlusWork(steps: seq<Step>)
    ensures Moves(steps) + Work(Run(INITIAL, steps)) <= 10 * |Run(INITIAL, steps).requests|
  {
    if steps == [] {
    } else {
      var before, last := Run(INITIAL, steps[..|steps| - 1]), steps[|steps| - 1];
      MovesPlusWork(steps[..|steps| - 1]);
      RunKeepsInv(steps[..|steps| - 1]);
      StepTakesWork(before, last);
      StepCountsCalls(before, last);
    }
  }

  lemma StepCountsCalls(s: State, step: Step)
    ensures |Next(s, step).requests| == |s.requests| + if step.Call? then 1 else 0
  {
    if step.Resume? && Next(s, step) != s {
      ResumeLowersRank(s, step.request);
    }
  }

  /** Every run settles: after N calls there are at most 10 N moves, in any interleaving, and a state that
      only a new call can change has finished every request. */
  lemma CallsSettle(steps: seq<Step>)
    ensures Moves(steps) <= 10 * |Run(INITIAL, steps).requests|
    ensures Stuck(Run(INITIAL, steps)) ==> Finished(Run(INITIAL, steps))
  {
    MovesPlusWork(steps);
    RunKeepsInv(steps);
    if Stuck(Run(INITIAL, steps)) {
      StuckMeansFinished(Run(INITIAL, steps));
    }
  }

  // ---- the sequential client is one schedule of the machine ----

  /** The state in which a quiet machine's newest request, called or released, sends its first fetch. */
  function Begun(s: State, kind: Kind): State {
    var called := Next(s, Call(kind));
    if kind.Protected? then Next(called, Resume(|s.requests|)) else called
  }

  /** Its first answers: the first fetch, and the repeat that a recent refresh allows. */
  function Asked(s: State, i: nat, again: bool, script: Script): State {
    var answered := Next(s, Respond(i, script.first, script.firstMs));
    if again then Next(answered, Respond(i, script.recent, script.firstMs)) else answered
  }

  function RefreshedAndRetried(s: State, i: nat, r: nat, needed: bool, script: Script): State {
    if !needed then s
    else
      var resumed := Next(Next(s, RefreshSettles(r, script.refreshOk, script.refreshMs)), Resume(i));
      if script.refreshOk then Next(resumed, Respond(i, script.retry, script.refreshMs)) else resumed
  }

  /** The steps of one request when nothing else moves. */
  function Undisturbed(s: State, kind: Kind, script: Script): State {
    var i := |s.requests|;
    var asked := Asked(Begun(s, kind), i, UsesRecentWindow(kind, script, s.lastRefreshMs), script);
    Next(RefreshedAndRetried(asked, i, |s.refreshes|, NeedsRefresh(kind, script, s.lastRefreshMs), script), Resume(i))
  }

  /** No refresh in flight, and the chain free. */
  predicate Quiet(s: State) {
    s.refreshInFlight.None? && Released(s, s.chain)
  }

  lemma BeginFetches(s: State, kind: Kind)
    requires Quiet(s)
    ensures var s' := Begun(s, kind);
            && |s'.requests| == |s.requests| + 1 && s'.requests[|s.requests|].pc == Fetching(First)
            && s'.requests[|s.requests|].kind == kind
            && s'.refreshInFlight.None? && s'.refreshes == s.refreshes && s'.lastRefreshMs == s.lastRefreshMs
            && s'.chain == if kind.Protected? then Some(|s.requests|) else s.chain
    ensures !kind.Protected? ==> Released(Begun(s, kind), s.chain)
  {
    CallAppends(s, kind);
  }

  lemma AskAnswers(s: State, i: nat, script: Script)
    requires i < |s.requests| && s.requests[i].pc == Fetching(First) && s.refreshInFlight.None?
    ensures var kind := s.requests[i].kind;
            var s' := Asked(s, i, UsesRecentWindow(kind, script, s.lastRefreshMs), script);
            && s'.chain == s.chain && s'.lastRefreshMs == s.lastRefreshMs
            && s'.requests == s.requests[i := s'.requests[i]]
            && (NeedsRefresh(kind, script, s.lastRefreshMs) ==>
                  && s'.refreshes == s.refreshes + [None] && s'.refreshInFlight == Some(|s.refreshes|)
                  && s'.requests[i].pc == Refreshing(|s.refreshes|))
            && (!NeedsRefresh(kind, script, s.lastRefreshMs) ==>
                  s'.refreshInFlight.None? && s'.requests[i].pc == Settled(Alone(kind, script, s.lastRefreshMs)))
  {
  }

  lemma RefreshThenRetry(s: State, i: nat, script: Script)
    requires i < |s.requests| && s.refreshes != [] && s.refreshInFlight == Some(|s.refreshes| - 1)
    requires s.refreshes[|s.refreshes| - 1].None? && s.requests[i].pc == Refreshing(|s.refreshes| - 1)
    ensures var s' := RefreshedAndRetried(s, i, |s.refreshes| - 1, true, script);
            && s'.chain == s.chain && s'.refreshInFlight.None?
            && i < |s'.requests| && s'.requests == s.requests[i := s'.requests[i]]
            && s'.requests[i].pc
                == Settled(if script.refreshOk && !Is401(script.retry) then Conclude(script.retry) else Unauthorized)
            && s'.lastRefreshMs == if script.refreshOk then script.refreshMs else s.lastRefreshMs
  {
  }

  predicate Expired(response: Response) {
    response.Answered? && response.status == 401
  }

  /** Which response decides a request that nothing disturbs: the first, unless it is a 401 on a route that may
      refresh; then the repeat within 1.5 seconds of the last refresh, unless that is a 401 too; then, after a
      successful refresh, the retry.  Without a successful refresh the session is lost. */
  lemma DecidingResponse(kind: Kind, script: Script, lastRefreshMs: int)
    ensures var outcome := Alone(kind, script, lastRefreshMs);
            var mayRefresh := Expired(script.first) && kind != AuthOther;
            var repeats := mayRefresh && script.firstMs <= lastRefreshMs + 1500;
            && (!mayRefresh ==> OutcomeFits(outcome, script.first))
            && (repeats && !Expired(script.recent) ==> OutcomeFits(outcome, script.recent))
            && (mayRefresh && (repeats ==> Expired(script.recent)) ==>
                  && LastRefreshAfter(kind, script, lastRefreshMs)
                     == (if script.refreshOk then script.refreshMs else lastRefreshMs)
                  && (script.refreshOk ==> OutcomeFits(outcome, script.retry))
                  && (!script.refreshOk ==> outcome == Unauthorized))
  {
  }

  /** A request that nothing disturbs ends as `ApiClient.RequestOne` says and leaves the machine quiet again. */
  lemma UndisturbedIsAlone(s: State, kind: Kind, script: Script)
    requires Quiet(s)
    ensures var s' := Undisturbed(s, kind, script);
            && |s'.requests| == |s.requests| + 1
            && s'.requests[|s.requests|].pc == Done(Alone(kind, script, s.lastRefreshMs))
            && s'.lastRefreshMs == LastRefreshAfter(kind, script, s.lastRefreshMs)
            && Quiet(s')
  {
    var i := |s.requests|;
    BeginFetches(s, kind);
    var begun := Begun(s, kind);
    AskAnswers(begun, i, script);
    if NeedsRefresh(kind, script, s.lastRefreshMs) {
      RefreshThenRetry(Asked(begun, i, UsesRecentWindow(kind, script, s.lastRefreshMs), script), i, script);
    }
  }
}
