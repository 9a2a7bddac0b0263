/** The Python client's event queue under any interleaving of capturing and flushing threads.  A step is
    one critical section under the client's lock, or one POST outside it. */
module PythonQueue {
  import opened Delivery
  import opened Text

  // ---- the state under the lock ----

  /** Events are numbered in the order in which their captures take the lock. */
  datatype Shared = Shared(queue: seq<nat>, dropped: nat, sent: nat, failed: nat)

  predicate Full(config: Config, s: Shared) {
    |s.queue| >= config.maxQueueSize
  }

  function Enqueue(config: Config, s: Shared, event: nat): Shared
    requires ValidConfig(config)
  {
    if !Full(config, s) then s.(queue := s.queue + [event])
    else if config.overflow.DropOldest? then s.(queue := s.queue[1..] + [event], dropped := s.dropped + 1)
    else s.(dropped := s.dropped + 1)
  }

  function Settle(s: Shared, ok: bool): Shared {
    if ok then s.(sent := s.sent + 1) else s.(failed := s.failed + 1)
  }

  class Client {
    const config: Config
    var queue: seq<nat>
    var dropped: nat
    var sent: nat
    var failed: nat

    ghost function State(): Shared
      reads this
    {
      Shared(queue, dropped, sent, failed)
    }

    constructor (config: Config)
      requires ValidConfig(config)
      ensures this.config == config && State() == Shared([], 0, 0, 0)
    {
      this.config, this.queue, this.dropped, this.sent, this.failed := config, [], 0, 0, 0;
    }

    method CaptureEvent(event: nat)
      requires ValidConfig(config)
      modifies this
      ensures State() == Enqueue(config, old(State()), event)
    {
      if |queue| >= config.maxQueueSize {
        if config.overflow == DropOldest {
          queue := queue[1..];
          dropped := dropped + 1;
        } else {
          dropped := dropped + 1;
          return;
        }
      }
      queue := queue + [event];
    }

    method PopEvent() returns (event: Option<nat>)
      modifies this
      ensures old(queue) == [] ==> event == None && State() == old(State())
      ensures old(queue) != [] ==> event == Some(old(queue)[0]) && State() == old(State()).(queue := old(queue)[1..])
    {
      if queue == [] {
        return None;
      }
      event := Some(queue[0]);
      queue := queue[1..];
    }

    method SendEvent(answers: Answers) returns (posts: nat)
      modifies this
      ensures State() == Settle(old(State()), Delivered(answers))
      ensures 1 <= posts <= 2 && (posts == 2 <==> Transient(answers.0))
    {
      posts := 1;
      var first := Classify(answers.0);
      if first == Ok {
        sent := sent + 1;
        return;
      }
      if first == Reject {
        failed := failed + 1;
        return;
      }
      posts := 2;
      if Classify(answers.1) == Ok {
        sent := sent + 1;
      } else {
        failed := failed + 1;
      }
    }

    /** A flush that no other thread disturbs: `budget` events fit before the deadline. */
    method Flush(budget: nat, answers: seq<Answers>) returns (n: nat)
      requires |answers| >= |queue|
      modifies this
      ensures n == Min(budget, |old(queue)|) && queue == old(queue)[n..] && dropped == old(dropped)
      ensures sent == old(sent) + DeliveredCount(answers[..n])
      ensures sent + failed == old(sent) + old(failed) + n
    {
      n := 0;
      while n < budget
        invariant n <= |old(queue)| && n <= budget
        invariant queue == old(queue)[n..] && dropped == old(dropped)
        invariant sent == old(sent) + DeliveredCount(answers[..n])
        invariant sent + failed == old(sent) + old(failed) + n
      {
        var event := PopEvent();
        if event.None? {
          break;
        }
        var posts := SendEvent(answers[n]);
        assert answers[..n+1][..n] == answers[..n];
        n := n + 1;
      }
    }
  }

  // ---- threads ----

  /** What a flushing thread does with the event it popped. */
  datatype Pc =
    | Posting(event: nat)
    | Sleeping(event: nat)
    | Settling(event: nat, ok: bool)

  datatype Place = Queued | Dropped | InFlight(thread: nat) | Sent | Failed

  /** The shared state, the busy threads, and a history: where every captured event is, the order of
      pops, and the answers that each event's POSTs got. */
  datatype State = State(
    shared: Shared, threads: map<nat, Pc>, captured: nat, places: seq<Place>, pops: seq<nat>,
        answers: seq<seq<Option<int>>>)

  datatype Step =
    | Capture
    | Pop(thread: nat)
    | Post(thread: nat, status: Option<int>)
    | Count(thread: nat)

  const INITIAL := State(Shared([], 0, 0, 0), map[], 0, [], [], [])

  function AfterCapture(config: Config, s: State): State
    requires ValidConfig(config)
  {
    var shared := Enqueue(config, s.shared, s.captured);
    var places :=
      if !Full(config, s.shared) then s.places + [Queued]
      else if config.overflow.DropOldest? && s.shared.queue[0] < |s.places| then
        s.places[s.shared.queue[0] := Dropped] + [Queued]
      else s.places + [Dropped];
    s.(shared := shared, captured := s.captured + 1, places := places, answers := s.answers + [[]])
  }

  function AfterPop(s: State, thread: nat): State {
    if thread in s.threads || s.shared.queue == [] || s.shared.queue[0] >= |s.places| then s
    else
      var event := s.shared.queue[0];
      s.(shared := s.shared.(queue := s.shared.queue[1..]), threads := s.threads[thread := Posting(event)],
         places := s.places[event := InFlight(thread)], pops := s.pops + [event])
  }

  function AfterPost(s: State, thread: nat, status: Option<int>): State {
    if thread !in s.threads || s.threads[thread].Settling? || s.threads[thread].event >= |s.answers| then s
    else
      var pc := s.threads[thread];
      var next :=
        match pc
        case Posting(e) =>
          if Classify(status) == Retry then Sleeping(e) else Settling(e, Classify(status) == Ok)
        case _ => Settling(pc.event, Classify(status) == Ok);
      s.(threads := s.threads[thread := next], answers := s.answers[pc.event := s.answers[pc.event] + [status]])
  }

  function AfterCount(s: State, thread: nat): State {
    if thread !in s.threads || !s.threads[thread].Settling? || s.threads[thread].event >= |s.places| then s
    else
      var pc := s.threads[thread];
      s.(shared := Settle(s.shared, pc.ok), threads := s.threads - {thread},
         places := s.places[pc.event := if pc.ok then Sent else Failed])
  }

  /** A step that is not possible leaves the state unchanged. */
  function Next(config: Config, s: State, step: Step): State
    requires ValidConfig(config)
  {
    match step
    case Capture => AfterCapture(config, s)
    case Pop(thread) => AfterPop(s, thread)
    case Post(thread, status) => AfterPost(s, thread, status)
    case Count(thread) => AfterCount(s, thread)
  }

  function Run(config: Config, steps: seq<Step>): State
    requires ValidConfig(config)
  {
    if steps == [] then INITIAL else Next(config, Run(config, steps[..|steps| - 1]), steps[|steps| - 1])
  }

  // ---- the invariant ----

  /** Popped events followed by queued events are in capture order: nothing is popped twice. */
  ghost predicate InCaptureOrder(s: State) {
    Increasing(s.pops + s.shared.queue) && forall e :: e in s.pops + s.shared.queue ==> e < s.captured
  }

  ghost predicate PlacesMatch(s: State) {
    && |s.places| == s.captured
    && (forall e | 0 <= e < |s.places| :: s.places[e] == Queued <==> e in s.shared.queue)
    && (forall e | 0 <= e < |s.places| :: s.places[e].InFlight? ==>
          s.places[e].thread in s.threads && s.threads[s.places[e].thread].event == e)
    && (forall t :: t in s.threads ==> s.threads[t].event < |s.places| && s.places[s.threads[t].event] == InFlight(t))
  }

  /** What an event's answers are while it is at its place. */
  predicate AnswersFit(s: State, e: nat)
    requires e < |s.places| == |s.answers|
  {
    match s.places[e]
    case Queued => s.answers[e] == []
    case Dropped => s.answers[e] == []
    case Sent => Verdict(s.answers[e], true)
    case Failed => Verdict(s.answers[e], false)
    case InFlight(t) =>
      t in s.threads ==>
        match s.threads[t]
        case Posting(_) => s.answers[e] == []
        case Sleeping(_) => AwaitsRetry(s.answers[e])
        case Settling(_, ok) => Verdict(s.answers[e], ok)
  }

  ghost predicate AllAnswered(s: State) {
    |s.answers| == |s.places| && forall e | 0 <= e < |s.places| :: AnswersFit(s, e)
  }

  /** Every counter counts the events that are in its place, and together they account for all. */
  ghost predicate Balanced(config: Config, s: State) {
    && s.captured == |s.shared.queue| + s.shared.dropped + s.shared.sent + s.shared.failed + |s.threads|
    && s.shared.dropped == Tally(s.places, Dropped)
    && s.shared.sent == Tally(s.places, Sent)
    && s.shared.failed == Tally(s.places, Failed)
    && |s.shared.queue| <= config.maxQueueSize
  }

  ghost predicate Inv(config: Config, s: State) {
    InCaptureOrder(s) && PlacesMatch(s) && AllAnswered(s) && Balanced(config, s)
  }

  lemma OldestIsOut(s: State)
    requires InCaptureOrder(s) && s.shared.queue != []
    ensures s.shared.queue[0] !in s.shared.queue[1..] && s.shared.queue[0] < s.captured
    ensures forall e :: e in s.shared.queue <==> e == s.shared.queue[0] || e in s.shared.queue[1..]
    ensures Increasing(s.pops + s.shared.queue[1..])
    ensures forall e :: e in s.pops ==> e < s.shared.queue[0]
  {
    var q, all, n := s.shared.queue, s.pops + s.shared.queue, |s.pops|;
    assert q == [q[0]] + q[1..];
    forall i | 0 <= i < |q[1..]| ensures q[0] < q[1..][i] {
      assert all[n] == q[0] && all[n + i + 1] == q[i + 1];
    }
    forall e | e in s.pops ensures e < q[0] {
      var i :| 0 <= i < |s.pops| && s.pops[i] == e;
      assert all[i] == e && all[n] == q[0];
    }
    assert q[0] in all;
    var rest := s.pops + q[1..];
    forall i, j | 0 <= i < j < |rest| ensures rest[i] < rest[j] {
      assert rest[i] == all[if i < n then i else i + 1] && rest[j] == all[if j < n then j else j + 1];
    }
  }

  lemma CaptureKeepsOrder(config: Config, s: State)
    requires ValidConfig(config) && InCaptureOrder(s)
    ensures InCaptureOrder(AfterCapture(config, s))
  {
    var q := s.shared.queue;
    if !Full(config, s.shared) {
      NewestComesLast(s.pops + q, s.captured);
      assert s.pops + (q + [s.captured]) == s.pops + q + [s.captured];
    } else if config.overflow.DropOldest? {
      OldestIsOut(s);
      forall e | e in s.pops + q[1..] ensures e < s.captured {
        assert e in s.pops + q;
      }
      NewestComesLast(s.pops + q[1..], s.captured);
      assert s.pops + (q[1..] + [s.captured]) == s.pops + q[1..] + [s.captured];
    }
  }

  lemma CaptureKeepsPosts(config: Config, s: State)
    requires ValidConfig(config) && InCaptureOrder(s) && PlacesMatch(s) && AllAnswered(s)
    ensures AllAnswered(AfterCapture(config, s))
  {
    var s' := AfterCapture(config, s);
    if Full(config, s.shared) {
      OldestIsOut(s);
    }
    forall e | 0 <= e < |s'.places| ensures AnswersFit(s', e) {
      if e < |s.places| {
        assert AnswersFit(s, e);
      }
    }
  }

  lemma TallyAfterCapture(config: Config, s: State, counted: Place)
    requires ValidConfig(config) && InCaptureOrder(s) && PlacesMatch(s) && !counted.Queued?
    ensures Tally(AfterCapture(config, s).places, counted)
            == Tally(s.places, counted) + if counted == Dropped && Full(config, s.shared) then 1 else 0
  {
    if Full(config, s.shared) && config.overflow.DropOldest? {
      OldestIsOut(s);
      var oldest := s.shared.queue[0];
      assert s.places[oldest] == Queued;
      TallyAfterChange(s.places, oldest, Dropped, counted);
      TallyAfterAppend(s.places[oldest := Dropped], Queued, counted);
    } else {
      TallyAfterAppend(s.places, if Full(config, s.shared) then Dropped else Queued, counted);
    }
  }

  lemma NewEventIsOut(s: State)
    requires InCaptureOrder(s)
    ensures s.captured !in s.shared.queue
  {
    assert s.captured in s.shared.queue ==> s.captured in s.pops + s.shared.queue;
  }

  lemma RoomKeepsPlaces(config: Config, s: State)
    requires ValidConfig(config) && InCaptureOrder(s) && PlacesMatch(s) && !Full(config, s.shared)
    ensures PlacesMatch(AfterCapture(config, s))
  {
    NewEventIsOut(s);
  }

  lemma DropNewestKeepsPlaces(config: Config, s: State)
    requires ValidConfig(config) && InCaptureOrder(s) && PlacesMatch(s)
    requires Full(config, s.shared) && config.overflow.DropNewest?
    ensures PlacesMatch(AfterCapture(config, s))
  {
    NewEventIsOut(s);
  }

  lemma DropOldestKeepsPlaces(config: Config, s: State)
    requires ValidConfig(config) && InCaptureOrder(s) && PlacesMatch(s)
    requires Full(config, s.shared) && config.overflow.DropOldest?
    ensures PlacesMatch(AfterCapture(config, s))
  {
    NewEventIsOut(s);
    OldestIsOut(s);
    var oldest := s.shared.queue[0];
    assert s.places[oldest] == Queued;
    var places := s.places[oldest := Dropped] + [Queued];
    forall e | 0 <= e < |places| ensures places[e] == Queued <==> e in s.shared.queue[1..] + [s.captured] {
      if e < |s.places| {
        assert s.places[e] == Queued <==> e in s.shared.queue;
      }
    }
  }

  lemma CaptureKeepsPlaces(config: Config, s: State)
    requires ValidConfig(config) && InCaptureOrder(s) && PlacesMatch(s)
    ensures PlacesMatch(AfterCapture(config, s))
  {
    if !Full(config, s.shared) {
      RoomKeepsPlaces(config, s);
    } else if config.overflow.DropNewest? {
      DropNewestKeepsPlaces(config, s);
    } else {
      DropOldestKeepsPlaces(config, s);
    }
  }

  lemma CaptureKeepsInv(config: Config, s: State)
    requires ValidConfig(config) && Inv(config, s)
    ensures Inv(config, AfterCapture(config, s))
  {
    CaptureKeepsOrder(config, s);
    CaptureKeepsPlaces(config, s);
    CaptureKeepsPosts(config, s);
    TallyAfterCapture(config, s, Dropped);
    TallyAfterCapture(config, s, Sent);
    TallyAfterCapture(config, s, Failed);
  }

  lemma PopKeepsPlaces(s: State, thread: nat)
    requires InCaptureOrder(s) && PlacesMatch(s)
    ensures InCaptureOrder(AfterPop(s, thread)) && PlacesMatch(AfterPop(s, thread))
  {
    var s' := AfterPop(s, thread);
    if s' != s {
      OldestIsOut(s);
      assert s'.pops + s'.shared.queue == s.pops + s.shared.queue;
      assert s.places[s.shared.queue[0]] == Queued;
    }
  }

  lemma PopKeepsPosts(s: State, thread: nat)
    requires InCaptureOrder(s) && PlacesMatch(s) && AllAnswered(s)
    ensures AllAnswered(AfterPop(s, thread))
  {
    var s' := AfterPop(s, thread);
    if s' != s {
      assert s.places[s.shared.queue[0]] == Queued;
      forall e | 0 <= e < |s'.places| ensures AnswersFit(s', e) {
        assert AnswersFit(s, e);
      }
    }
  }

  lemma PopKeepsBalance(config: Config, s: State, thread: nat)
    requires PlacesMatch(s) && Balanced(config, s)
    ensures Balanced(config, AfterPop(s, thread))
  {
    var s' := AfterPop(s, thread);
    if s' != s {
      var event := s.shared.queue[0];
      assert s.places[event] == Queued;
      TallyAfterChange(s.places, event, InFlight(thread), Dropped);
      TallyAfterChange(s.places, event, InFlight(thread), Sent);
      TallyAfterChange(s.places, event, InFlight(thread), Failed);
    }
  }

  lemma PopKeepsInv(config: Config, s: State, thread: nat)
    requires ValidConfig(config) && Inv(config, s)
    ensures Inv(config, AfterPop(s, thread))
  {
    PopKeepsPlaces(s, thread);
    PopKeepsPosts(s, thread);
    PopKeepsBalance(config, s, thread);
  }

  lemma PostKeepsPlaces(s: State, thread: nat, status: Option<int>)
    requires PlacesMatch(s)
    ensures PlacesMatch(AfterPost(s, thread, status))
  {
  }

  lemma PostKeepsPosts(s: State, thread: nat, status: Option<int>)
    requires PlacesMatch(s) && AllAnswered(s)
    ensures AllAnswered(AfterPost(s, thread, status))
  {
    var s' := AfterPost(s, thread, status);
    if s' != s {
      forall e | 0 <= e < |s'.places| ensures AnswersFit(s', e) {
        assert AnswersFit(s, e);
      }
    }
  }

  lemma PostKeepsInv(config: Config, s: State, thread: nat, status: Option<int>)
    requires ValidConfig(config) && Inv(config, s)
    ensures Inv(config, AfterPost(s, thread, status))
  {
    var s' := AfterPost(s, thread, status);
    PostKeepsPlaces(s, thread, status);
    PostKeepsPosts(s, thread, status);
    if s' != s {
      assert s'.threads.Keys == s.threads.Keys;
      assert |s'.threads| == |s'.threads.Keys| == |s.threads|;
    }
  }

  lemma CountKeepsPlaces(s: State, thread: nat)
    requires PlacesMatch(s)
    ensures PlacesMatch(AfterCount(s, thread))
  {
  }

  lemma CountKeepsPosts(s: State, thread: nat)
    requires PlacesMatch(s) && AllAnswered(s)
    ensures AllAnswered(AfterCount(s, thread))
  {
    var s' := AfterCount(s, thread);
    forall e | 0 <= e < |s'.places| ensures AnswersFit(s', e) {
      assert AnswersFit(s, e);
    }
  }

  lemma CountKeepsBalance(config: Config, s: State, thread: nat)
    requires PlacesMatch(s) && Balanced(config, s)
    ensures Balanced(config, AfterCount(s, thread))
  {
    var s' := AfterCount(s, thread);
    if s' != s {
      var pc := s.threads[thread];
      var place := if pc.ok then Sent else Failed;
      assert s.places[pc.event] == InFlight(thread);
      assert s'.threads.Keys == s.threads.Keys - {thread};
      assert |s'.threads| == |s'.threads.Keys| == |s.threads| - 1;
      TallyAfterChange(s.places, pc.event, place, Dropped);
      TallyAfterChange(s.places, pc.event, place, Sent);
      TallyAfterChange(s.places, pc.event, place, Failed);
    }
  }

  lemma CountKeepsInv(config: Config, s: State, thread: nat)
    requires ValidConfig(config) && Inv(config, s)
    ensures Inv(config, AfterCount(s, thread))
  {
    CountKeepsPlaces(s, thread);
    CountKeepsPosts(s, thread);
    CountKeepsBalance(config, s, thread);
  }

  /** Conservation over every interleaving of capturing and flushing threads. */
  lemma {:induction false} RunKeepsInv(config: Config, steps: seq<Step>)
    requires ValidConfig(config)
    ensures Inv(config, Run(config, steps))
  {
    if steps == [] {
    } else {
      var s := Run(config, steps[..|steps| - 1]);
      RunKeepsInv(config, steps[..|steps| - 1]);
      match steps[|steps| - 1]
      case Capture => CaptureKeepsInv(config, s);
      case Pop(thread) => PopKeepsInv(config, s, thread);
      case Post(thread, status) => PostKeepsInv(config, s, thread, status);
      case Count(thread) => CountKeepsInv(config, s, thread);
    }
  }

  /** Captured events balance, the queue stays bounded, no event is popped twice and pops follow capture
      order, no event is POSTed more than twice, and an event counts as sent or failed as its own answers say. */
  lemma QueueConservation(config: Config, steps: seq<Step>)
    requires ValidConfig(config)
    ensures var s := Run(config, steps);
            && s.captured == |s.shared.queue| + s.shared.dropped + s.shared.sent + s.shared.failed + |s.threads|
            && |s.shared.queue| <= config.maxQueueSize
            && Increasing(s.pops)
            && |s.places| == |s.answers| == s.captured
            && s.shared.sent == Tally(s.places, Sent) && s.shared.failed == Tally(s.places, Failed)
            && forall e | 0 <= e < s.captured ::
                 && |s.answers[e]| <= 2
                 && (s.places[e] == Sent ==> Verdict(s.answers[e], true))
                 && (s.places[e] == Failed ==> Verdict(s.answers[e], false))
                 && (s.places[e] == Dropped ==> s.answers[e] == [])
  {
    RunKeepsInv(config, steps);
    var s := Run(config, steps);
    forall i, j | 0 <= i < j < |s.pops| ensures s.pops[i] < s.pops[j] {
      assert (s.pops + s.shared.queue)[i] == s.pops[i] && (s.pops + s.shared.queue)[j] == s.pops[j];
    }
    forall e | 0 <= e < s.captured
      ensures |s.answers[e]| <= 2
      ensures s.places[e] == Sent ==> Verdict(s.answers[e], true)
      ensures s.places[e] == Failed ==> Verdict(s.answers[e], false)
      ensures s.places[e] == Dropped ==> s.answers[e] == []
    {
      assert AnswersFit(s, e);
    }
  }

  /** What a capture does to the events when the queue is full: one of them is dropped, the oldest of the queue or
      the newest, as configured; otherwise none is. */
  lemma OverflowPolicy(config: Config, steps: seq<Step>)
    requires ValidConfig(config)
    ensures var s := Run(config, steps);
            var after := Next(config, s, Capture).places;
            && |s.places| == s.captured
            && (|s.shared.queue| < config.maxQueueSize ==> after == s.places + [Queued])
            && (|s.shared.queue| >= config.maxQueueSize && config.overflow == DropNewest ==>
                  after == s.places + [Dropped])
            && (|s.shared.queue| >= config.maxQueueSize && config.overflow == DropOldest ==>
                  exists o: nat :: IsOldest(s, o) && after == s.places[o := Dropped] + [Queued])
  {
    RunKeepsInv(config, steps);
    var s := Run(config, steps);
    if Full(config, s.shared) && config.overflow.DropOldest? {
      OldestIsOut(s);
      assert s.places[s.shared.queue[0]] == Queued;
      OldestHasLeastNumber(s);
      assert IsOldest(s, s.shared.queue[0]);
    }
  }

  /** The event captured first of those still queued. */
  ghost predicate IsOldest(s: State, o: nat) {
    o < |s.places| && s.places[o] == Queued && forall e | 0 <= e < o :: s.places[e] != Queued
  }

  lemma OldestHasLeastNumber(s: State)
    requires InCaptureOrder(s) && PlacesMatch(s) && s.shared.queue != []
    ensures forall e | 0 <= e < s.shared.queue[0] && e < |s.places| :: s.places[e] != Queued
  {
    var q := s.shared.queue;
    forall e | e in q ensures q[0] <= e {
      var i :| 0 <= i < |q| && q[i] == e;
      assert (s.pops + q)[|s.pops|] == q[0] && (s.pops + q)[|s.pops| + i] == q[i];
    }
  }
}
