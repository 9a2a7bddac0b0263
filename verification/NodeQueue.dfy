/** The Node client's event queue.  JavaScript runs one task at a time, so a step is everything between two
    awaits; any number of flush calls may be suspended at an await. */
module NodeQueue {
  import opened Delivery
  import opened Text

  // ---- the client's fields ----

  /** Events are numbered in the order of the captureEvent calls. */
  datatype Fields = Fields(
    queue: seq<nat>, isFlushing: bool, isClosed: bool, dropped: nat, sent: nat, failed: nat)

  predicate Full(config: Config, f: Fields) {
    |f.queue| >= config.maxQueueSize
  }

  /** The overflow rule comes before the closed check: a closed client still drops its oldest event. */
  function Enqueue(config: Config, f: Fields, event: nat): Fields
    requires ValidConfig(config)
  {
    if Full(config, f) && config.overflow.DropNewest? then f.(dropped := f.dropped + 1)
    else
      var room := if Full(config, f) then f.(queue := f.queue[1..], dropped := f.dropped + 1) else f;
      if f.isClosed then room else room.(queue := room.queue + [event])
  }

  function Settle(f: Fields, ok: bool): Fields {
    if ok then f.(sent := f.sent + 1) else f.(failed := f.failed + 1)
  }

  class Client {
    const config: Config
    var queue: seq<nat>
    var isFlushing: bool
    var isClosed: bool
    var dropped: nat
    var sent: nat
    var failed: nat

    ghost function State(): Fields
      reads this
    {
      Fields(queue, isFlushing, isClosed, dropped, sent, failed)
    }

    constructor (config: Config)
      requires ValidConfig(config)
      ensures this.config == config && State() == Fields([], false, false, 0, 0, 0)
    {
      this.config, queue, isFlushing, isClosed, dropped, sent, failed := config, [], false, false, 0, 0, 0;
    }

    method CaptureEvent(event: nat)
      requires ValidConfig(config)
      modifies this
      ensures State() == Enqueue(config, old(State()), event)
    {
      if |queue| >= config.maxQueueSize {
        if config.overflow == DropOldest {
          queue := queue[1..];
          dropped := dropped + 1;
        } else {
          dropped := dropped + 1;
          return;
        }
      }
      if isClosed {
        return;
      }
      queue := queue + [event];
    }

    method SendEvent(answers: Answers)
      modifies this`sent, this`failed
      ensures State() == Settle(old(State()), Delivered(answers))
    {
      var first := Classify(answers.0);
      if first == Ok {
        sent := sent + 1;
        return;
      }
      if first == Reject {
        failed := failed + 1;
        return;
      }
      if Classify(answers.1) == Ok {
        sent := sent + 1;
      } else {
        failed := failed + 1;
      }
    }

    /** A flush during which nothing else runs at its awaits. */
    method Flush(answers: seq<Answers>)
      requires |answers| >= |queue|
      modifies this
      ensures old(isFlushing || isClosed) ==> State() == old(State())
      ensures !old(isFlushing || isClosed) ==>
                && queue == [] && !isFlushing && !isClosed && dropped == old(dropped)
                && sent == old(sent) + DeliveredCount(answers[..|old(queue)|])
                && sent + failed == old(sent) + old(failed) + |old(queue)|
    {
      if isFlushing || isClosed {
        return;
      }
      isFlushing := true;
      ghost var n := 0;
      var rest := answers;
      while |queue| > 0
        invariant n <= |old(queue)| && queue == old(queue)[n..] && rest == answers[n..]
        invariant !isClosed && dropped == old(dropped)
        invariant sent == old(sent) + DeliveredCount(answers[..n])
        invariant sent + failed == old(sent) + old(failed) + n
      {
        queue := queue[1..];
        SendEvent(rest[0]);
        rest := rest[1..];
        assert answers[..n+1][..n] == answers[..n];
        n := n + 1;
      }
      isFlushing := false;
    }

    method Close()
      modifies this`isClosed
      ensures isClosed
    {
      isClosed := true;
    }
  }

  // ---- interleavings ----

  /** Where a flush call is suspended; Counted is the hop between sendEvent's return and the loop head. */
  datatype Pc = First(event: nat) | Waiting(event: nat) | Second(event: nat) | Counted

  datatype Place = Queued | Dropped | Ignored | InFlight | Sent | Failed

  datatype Attempt = Attempt(event: nat, number: nat)

  /** The fields, the suspended flush calls, and a history: where every event is, the POSTs in order, and the
      answers that each event's POSTs got. */
  datatype State = State(
    fields: Fields, active: map<nat, Pc>, captured: nat, places: seq<Place>, posts: seq<Attempt>,
        answers: seq<seq<Option<int>>>)

  datatype Step =
    | Capture
    | Start(call: nat)
    | Answer(call: nat, status: Option<int>)
    | Wake(call: nat)
    | Resume(call: nat)
    | Close

  const INITIAL := State(Fields([], false, false, 0, 0, 0), map[], 0, [], [], [])

  function AfterCapture(config: Config, s: State): State
    requires ValidConfig(config)
  {
    var oldestOut :=
      if Full(config, s.fields) && config.overflow.DropOldest? && s.fields.queue[0] < |s.places|
      then s.places[s.fields.queue[0] := Dropped] else s.places;
    var place :=
      if Full(config, s.fields) && config.overflow.DropNewest? then Dropped
      else if s.fields.isClosed then Ignored
      else Queued;
    s.(fields := Enqueue(config, s.fields, s.captured), captured := s.captured + 1, places := oldestOut + [place],
        answers := s.answers + [[]])
  }

  /** The loop head: take the oldest event and POST it, or finish. */
  function Loop(s: State, call: nat): State {
    if s.fields.queue == [] then s.(fields := s.fields.(isFlushing := false), active := s.active - {call})
    else if s.fields.queue[0] >= |s.places| then s
    else
      var event := s.fields.queue[0];
      s.(fields := s.fields.(queue := s.fields.queue[1..]), active := s.active[call := First(event)],
         places := s.places[event := InFlight], posts := s.posts + [Attempt(event, 1)])
  }

  function AfterStart(s: State, call: nat): State {
    if call in s.active || s.fields.isFlushing || s.fields.isClosed then s
    else Loop(s.(fields := s.fields.(isFlushing := true), active := s.active[call := Counted]), call)
  }

  function AfterAnswer(s: State, call: nat, status: Option<int>): State {
    if call !in s.active || s.active[call].Waiting? || s.active[call].Counted? then s
    else if s.active[call].event >= |s.answers| then s
    else
      var event := s.active[call].event;
      var heard := s.(answers := s.answers[event := s.answers[event] + [status]]);
      if s.active[call].First? && Classify(status) == Retry then heard.(active := s.active[call := Waiting(event)])
      else Count(heard, call, event, Classify(status) == Ok)
  }

  function Count(s: State, call: nat, event: nat, ok: bool): State {
    if event >= |s.places| then s
    else s.(fields := Settle(s.fields, ok), active := s.active[call := Counted],
            places := s.places[event := if ok then Sent else Failed])
  }

  function AfterWake(s: State, call: nat): State {
    if call in s.active && s.active[call].Waiting? then
      var event := s.active[call].event;
      s.(active := s.active[call := Second(event)], posts := s.posts + [Attempt(event, 2)])
    else s
  }

  function AfterResume(s: State, call: nat): State {
    if call in s.active && s.active[call].Counted? then Loop(s, call) else s
  }

  /** A step that is not possible leaves the state unchanged. */
  function Next(config: Config, s: State, step: Step): State
    requires ValidConfig(config)
  {
    match step
    case Capture => AfterCapture(config, s)
    case Start(call) => AfterStart(s, call)
    case Answer(call, status) => AfterAnswer(s, call, status)
    case Wake(call) => AfterWake(s, call)
    case Resume(call) => AfterResume(s, call)
    case Close => s.(fields := s.fields.(isClosed := true))
  }

  function Run(config: Config, from: State, steps: seq<Step>): State
    requires ValidConfig(config)
    decreases |steps|
  {
    if steps == [] then from else Next(config, Run(config, from, steps[..|steps| - 1]), steps[|steps| - 1])
  }

  // ---- the invariant ----

  /** The one suspended flush call, if there is one. */
  ghost predicate Exclusive(s: State) {
    && (forall c, d :: c in s.active && d in s.active ==> c == d)
    && (s.fields.isFlushing <==> s.active != map[])
  }

  ghost predicate CarriesEvent(s: State, event: nat) {
    exists c :: c in s.active && !s.active[c].Counted? && s.active[c].event == event
  }

  ghost predicate Before(a: Attempt, b: Attempt) {
    a.event < b.event || (a.event == b.event && a.number < b.number)
  }

  /** The log of POSTs ascends by event and, within an event, by attempt. */
  ghost predicate Ascending(posts: seq<Attempt>) {
    forall i, j | 0 <= i < j < |posts| :: Before(posts[i], posts[j])
  }

  /** A retry comes straight after the first POST of its event. */
  ghost predicate RetriesFollow(posts: seq<Attempt>) {
    forall i | 0 <= i < |posts| && posts[i].number == 2 :: i > 0 && posts[i - 1] == Attempt(posts[i].event, 1)
  }

  ghost predicate Logged(s: State) {
    && Ascending(s.posts) && RetriesFollow(s.posts)
    && (forall p :: p in s.posts ==> p.event < s.captured && 1 <= p.number <= 2)
    && (forall p, q :: p in s.posts && q in s.fields.queue ==> p.event < q)
    && (forall c :: c in s.active && !s.active[c].Counted? ==>
          s.posts != [] && s.posts[|s.posts| - 1] == Attempt(s.active[c].event, if s.active[c].Second? then 2 else 1))
  }

  ghost predicate QueueOrdered(s: State) {
    Increasing(s.fields.queue) && forall e :: e in s.fields.queue ==> e < s.captured
  }

  ghost predicate PlacesMatch(s: State) {
    && |s.places| == s.captured
    && (forall e | 0 <= e < |s.places| :: s.places[e] == Queued <==> e in s.fields.queue)
    && (forall e | 0 <= e < |s.places| :: s.places[e] == InFlight <==> CarriesEvent(s, e))
    && (forall c :: c in s.active && !s.active[c].Counted? ==> s.active[c].event < |s.places|)
  }

  /** What an event's answers are while it is at its place. */
  predicate AnswersFit(place: Place, answers: seq<Option<int>>) {
    match place
    case Sent => Verdict(answers, true)
    case Failed => Verdict(answers, false)
    case InFlight => true
    case _ => answers == []
  }

  /** What the answers of the event that a flush call carries are while it waits. */
  predicate HeardSoFar(pc: Pc, answers: seq<seq<Option<int>>>) {
    match pc
    case First(e) => e < |answers| && answers[e] == []
    case Waiting(e) => e < |answers| && AwaitsRetry(answers[e])
    case Second(e) => e < |answers| && AwaitsRetry(answers[e])
    case Counted => true
  }

  ghost predicate Answered(s: State) {
    && |s.answers| == |s.places|
    && (forall e | 0 <= e < |s.places| :: AnswersFit(s.places[e], s.answers[e]))
    && (forall c :: c in s.active ==> HeardSoFar(s.active[c], s.answers))
  }

  /** Events awaiting an answer or a retry. */
  function InFlightCount(s: State): nat {
    Tally(s.places, InFlight)
  }

  ghost predicate Balanced(config: Config, s: State) {
    && s.captured == |s.fields.queue| + s.fields.dropped + s.fields.sent + s.fields.failed + InFlightCount(s)
        + Tally(s.places, Ignored)
    && s.fields.dropped == Tally(s.places, Dropped)
    && s.fields.sent == Tally(s.places, Sent)
    && s.fields.failed == Tally(s.places, Failed)
    && |s.fields.queue| <= config.maxQueueSize
  }

  ghost predicate Inv(config: Config, s: State) {
    Exclusive(s) && QueueOrdered(s) && Logged(s) && PlacesMatch(s) && Balanced(config, s)
  }

  // ---- every step keeps it ----

  lemma OldestFirst(s: State)
    requires QueueOrdered(s) && s.fields.queue != []
    ensures s.fields.queue[0] < s.captured && s.fields.queue[0] !in s.fields.queue[1..]
    ensures forall e :: e in s.fields.queue <==> e == s.fields.queue[0] || e in s.fields.queue[1..]
    ensures forall e :: e in s.fields.queue[1..] ==> s.fields.queue[0] < e
    ensures Increasing(s.fields.queue[1..])
  {
    var q := s.fields.queue;
    assert q == [q[0]] + q[1..] && q[0] in q;
    forall i | 0 <= i < |q[1..]| ensures q[0] < q[1..][i] {
      assert q[1..][i] == q[i + 1];
    }
  }

  lemma CaptureKeepsOrder(config: Config, s: State)
    requires ValidConfig(config) && QueueOrdered(s) && Logged(s)
    ensures QueueOrdered(AfterCapture(config, s)) && Logged(AfterCapture(config, s))
  {
    if Full(config, s.fields) {
      OldestFirst(s);
      NewestComesLast(s.fields.queue[1..], s.captured);
    } else {
      NewestComesLast(s.fields.queue, s.captured);
    }
  }

  lemma CaptureKeepsPlaces(config: Config, s: State)
    requires ValidConfig(config) && QueueOrdered(s) && PlacesMatch(s)
    ensures PlacesMatch(AfterCapture(config, s))
  {
    var s' := AfterCapture(config, s);
    if Full(config, s.fields) {
      OldestFirst(s);
    }
    forall e | 0 <= e < |s'.places| ensures s'.places[e] == InFlight <==> CarriesEvent(s', e) {
      assert CarriesEvent(s', e) == CarriesEvent(s, e);
    }
  }

  lemma CaptureCounts(config: Config, s: State, counted: Place)
    requires ValidConfig(config) && QueueOrdered(s) && PlacesMatch(s)
    ensures var s', oldest := AfterCapture(config, s), Full(config, s.fields) && config.overflow.DropOldest?;
            Tally(s'.places, counted)
            == Tally(s.places, counted) - (if oldest && counted == Queued then 1 else 0)
               + (if oldest && counted == Dropped then 1 else 0) + (if s'.places[s.captured] == counted then 1 else 0)
  {
    var s' := AfterCapture(config, s);
    var place := s'.places[s.captured];
    if Full(config, s.fields) && config.overflow.DropOldest? {
      OldestFirst(s);
      var oldest := s.fields.queue[0];
      assert s.places[oldest] == Queued;
      TallyAfterChange(s.places, oldest, Dropped, counted);
      TallyAfterAppend(s.places[oldest := Dropped], place, counted);
    } else {
      TallyAfterAppend(s.places, place, counted);
    }
  }

  lemma CaptureKeepsInv(config: Config, s: State)
    requires ValidConfig(config) && Inv(config, s)
    ensures Inv(config, AfterCapture(config, s))
  {
    CaptureKeepsOrder(config, s);
    CaptureKeepsPlaces(config, s);
    CaptureCounts(config, s, Dropped);
    CaptureCounts(config, s, Ignored);
    CaptureCounts(config, s, InFlight);
    CaptureCounts(config, s, Sent);
    CaptureCounts(config, s, Failed);
  }

  lemma LaterPost(posts: seq<Attempt>, last: Attempt)
    requires Ascending(posts) && (posts == [] || forall p :: p in posts ==> Before(p, last))
    requires RetriesFollow(posts) && (last.number == 2 ==> posts != [] && posts[|posts| - 1] == Attempt(last.event, 1))
    ensures Ascending(posts + [last]) && RetriesFollow(posts + [last])
    ensures forall p :: p in posts + [last] ==> p in posts || p == last
  {
    forall i, j | 0 <= i < j < |posts + [last]| ensures Before((posts + [last])[i], (posts + [last])[j]) {
      assert posts[i] in posts;
    }
  }

  /** The state at a loop head: the flush call holds the flag and no event. */
  ghost predicate AtLoop(config: Config, s: State, call: nat) {
    Inv(config, s) && call in s.active && s.active[call].Counted?
  }

  lemma LoopKeepsOrder(config: Config, s: State, call: nat)
    requires AtLoop(config, s, call)
    ensures Exclusive(Loop(s, call)) && QueueOrdered(Loop(s, call)) && Logged(Loop(s, call))
  {
    if s.fields.queue != [] {
      OldestFirst(s);
      LaterPost(s.posts, Attempt(s.fields.queue[0], 1));
    }
  }

  lemma LoopKeepsPlaces(config: Config, s: State, call: nat)
    requires AtLoop(config, s, call)
    ensures PlacesMatch(Loop(s, call))
  {
    var s' := Loop(s, call);
    forall e ensures !CarriesEvent(s, e) {
    }
    if s.fields.queue != [] {
      OldestFirst(s);
      var event := s.fields.queue[0];
      assert CarriesEvent(s', event) by { assert s'.active[call].event == event; }
      forall e ensures CarriesEvent(s', e) <==> e == event {
      }
    } else {
      forall e ensures !CarriesEvent(s', e) {
      }
    }
  }

  lemma LoopKeepsInv(config: Config, s: State, call: nat)
    requires AtLoop(config, s, call)
    ensures Inv(config, Loop(s, call))
  {
    LoopKeepsOrder(config, s, call);
    LoopKeepsPlaces(config, s, call);
    if s.fields.queue != [] {
      OldestFirst(s);
      var event := s.fields.queue[0];
      assert s.places[event] == Queued;
      TallyAfterChange(s.places, event, InFlight, Dropped);
      TallyAfterChange(s.places, event, InFlight, Ignored);
      TallyAfterChange(s.places, event, InFlight, InFlight);
      TallyAfterChange(s.places, event, InFlight, Sent);
      TallyAfterChange(s.places, event, InFlight, Failed);
    }
  }

  lemma StartKeepsInv(config: Config, s: State, call: nat)
    requires ValidConfig(config) && Inv(config, s)
    ensures Inv(config, AfterStart(s, call))
  {
    if call !in s.active && !s.fields.isFlushing && !s.fields.isClosed {
      var begun := s.(fields := s.fields.(isFlushing := true), active := s.active[call := Counted]);
      forall e ensures CarriesEvent(begun, e) == CarriesEvent(s, e) {
      }
      LoopKeepsInv(config, begun, call);
    }
  }

  lemma CountKeepsInv(config: Config, s: State, call: nat, ok: bool)
    requires Inv(config, s) && call in s.active && !s.active[call].Counted?
    ensures Inv(config, Count(s, call, s.active[call].event, ok))
  {
    var event := s.active[call].event;
    var s' := Count(s, call, event, ok);
    var place := if ok then Sent else Failed;
    assert CarriesEvent(s, event);
    forall e ensures CarriesEvent(s, e) <==> e == event {
    }
    forall e ensures !CarriesEvent(s', e) {
    }
    TallyAfterChange(s.places, event, place, Dropped);
    TallyAfterChange(s.places, event, place, Ignored);
    TallyAfterChange(s.places, event, place, InFlight);
    TallyAfterChange(s.places, event, place, Sent);
    TallyAfterChange(s.places, event, place, Failed);
  }

  lemma MoveKeepsInv(config: Config, s: State, call: nat, next: Pc, posts: seq<Attempt>)
    requires Inv(config, s) && call in s.active && !s.active[call].Counted? && !next.Counted?
            && next.event == s.active[call].event
    requires Logged(s.(active := s.active[call := next], posts := posts))
    ensures Inv(config, s.(active := s.active[call := next], posts := posts))
  {
    var s' := s.(active := s.active[call := next], posts := posts);
    forall e ensures CarriesEvent(s', e) == CarriesEvent(s, e) {
      if CarriesEvent(s, e) {
        assert s'.active[call].event == e;
      }
    }
  }

  lemma HearingKeepsInv(config: Config, s: State, answers: seq<seq<Option<int>>>)
    requires Inv(config, s)
    ensures Inv(config, s.(answers := answers))
  {
    forall e ensures CarriesEvent(s.(answers := answers), e) == CarriesEvent(s, e) {
    }
  }

  lemma AnswerKeepsInv(config: Config, s: State, call: nat, status: Option<int>)
    requires ValidConfig(config) && Inv(config, s)
    ensures Inv(config, AfterAnswer(s, call, status))
  {
    if call in s.active && !s.active[call].Counted? && s.active[call].event < |s.answers| {
      var event := s.active[call].event;
      var heard := s.(answers := s.answers[event := s.answers[event] + [status]]);
      HearingKeepsInv(config, s, heard.answers);
      if s.active[call].First? && Classify(status) == Retry {
        MoveKeepsInv(config, heard, call, Waiting(event), s.posts);
      } else {
        CountKeepsInv(config, heard, call, Classify(status) == Ok);
      }
    }
  }

  lemma WakeKeepsInv(config: Config, s: State, call: nat)
    requires ValidConfig(config) && Inv(config, s)
    ensures Inv(config, AfterWake(s, call))
  {
    if call in s.active && s.active[call].Waiting? {
      var event := s.active[call].event;
      forall p | p in s.posts ensures Before(p, Attempt(event, 2)) {
        var i :| 0 <= i < |s.posts| && s.posts[i] == p;
        if i < |s.posts| - 1 {
          assert Before(s.posts[i], s.posts[|s.posts| - 1]);
        }
      }
      LaterPost(s.posts, Attempt(event, 2));
      assert CarriesEvent(s, event);
      assert Attempt(event, 1) in s.posts;
      MoveKeepsInv(config, s, call, Second(event), s.posts + [Attempt(event, 2)]);
    }
  }

  lemma CloseKeepsInv(config: Config, s: State)
    requires ValidConfig(config) && Inv(config, s)
    ensures Inv(config, Next(config, s, Close))
  {
    forall e ensures CarriesEvent(Next(config, s, Close), e) == CarriesEvent(s, e) {
    }
  }

  lemma StepKeepsInv(config: Config, s: State, step: Step)
    requires ValidConfig(config) && Inv(config, s)
    ensures Inv(config, Next(config, s, step))
  {
    match step
    case Capture => CaptureKeepsInv(config, s);
    case Start(call) => StartKeepsInv(config, s, call);
    case Answer(call, status) => AnswerKeepsInv(config, s, call, status);
    case Wake(call) => WakeKeepsInv(config, s, call);
    case Resume(call) =>
      if call in s.active && s.active[call].Counted? {
        LoopKeepsInv(config, s, call);
      }
    case Close => CloseKeepsInv(config, s);
  }

  lemma {:induction false} RunKeepsInv(config: Config, steps: seq<Step>)
    requires ValidConfig(config)
    ensures Inv(config, Run(config, INITIAL, steps))
  {
    if steps == [] {
      forall e ensures !CarriesEvent(INITIAL, e) {
      }
    } else {
      RunKeepsInv(config, steps[..|steps| - 1]);
      StepKeepsInv(config, Run(config, INITIAL, steps[..|steps| - 1]), steps[|steps| - 1]);
    }
  }

  // ---- answers ----

  lemma LoopKeepsAnswers(config: Config, s: State, call: nat)
    requires AtLoop(config, s, call) && Answered(s)
    ensures Answered(Loop(s, call))
  {
    if s.fields.queue != [] {
      OldestFirst(s);
      assert s.places[s.fields.queue[0]] == Queued;
    }
  }

  lemma StartKeepsAnswers(config: Config, s: State, call: nat)
    requires Inv(config, s) && Answered(s)
    ensures Answered(AfterStart(s, call))
  {
    if s.fields.queue != [] {
      OldestFirst(s);
      assert s.places[s.fields.queue[0]] == Queued;
    }
  }

  lemma CaptureKeepsAnswers(config: Config, s: State)
    requires ValidConfig(config) && Inv(config, s) && Answered(s)
    ensures Answered(AfterCapture(config, s))
  {
    if Full(config, s.fields) {
      OldestFirst(s);
      assert s.places[s.fields.queue[0]] == Queued;
    }
  }

  lemma StepKeepsAnswers(config: Config, s: State, step: Step)
    requires ValidConfig(config) && Inv(config, s) && Answered(s)
    ensures Answered(Next(config, s, step))
  {
    match step
    case Capture => CaptureKeepsAnswers(config, s);
    case Start(call) => StartKeepsAnswers(config, s, call);
    case Answer(call, status) =>
    case Wake(call) =>
    case Resume(call) =>
      if call in s.active && s.active[call].Counted? {
        LoopKeepsAnswers(config, s, call);
      }
    case Close =>
  }

  lemma {:induction false} RunKeepsAnswers(config: Config, steps: seq<Step>)
    requires ValidConfig(config)
    ensures Answered(Run(config, INITIAL, steps))
  {
    if steps == [] {
    } else {
      RunKeepsAnswers(config, steps[..|steps| - 1]);
      RunKeepsInv(config, steps[..|steps| - 1]);
      StepKeepsAnswers(config, Run(config, INITIAL, steps[..|steps| - 1]), steps[|steps| - 1]);
    }
  }

  // ---- what it gives ----

  lemma {:induction false} UniqueTally(places: seq<Place>, place: Place)
    requires forall i, j | 0 <= i < |places| && 0 <= j < |places| && places[i] == place && places[j] == place :: i == j
    ensures Tally(places, place) <= 1
    ensures Tally(places, place) == 1 ==> place in places
  {
    if places == [] {
    } else {
      var n := |places| - 1;
      UniqueTally(places[..n], place);
    }
  }

  /** At most one flush call is inside the loop, exactly while the flag is up, and at most one event is in flight. */
  lemma FlushIsExclusive(config: Config, steps: seq<Step>)
    requires ValidConfig(config)
    ensures var s := Run(config, INITIAL, steps);
            && (forall c, d :: c in s.active && d in s.active ==> c == d)
            && (s.fields.isFlushing <==> s.active != map[])
            && InFlightCount(s) <= 1
            && (InFlightCount(s) == 1 ==> s.fields.isFlushing)
  {
    RunKeepsInv(config, steps);
    var s := Run(config, INITIAL, steps);
    forall i, j | 0 <= i < |s.places| && 0 <= j < |s.places| && s.places[i] == InFlight && s.places[j] == InFlight
      ensures i == j {
      assert CarriesEvent(s, i) && CarriesEvent(s, j);
    }
    UniqueTally(s.places, InFlight);
    if InFlightCount(s) == 1 {
      var e :| 0 <= e < |s.places| && s.places[e] == InFlight;
      assert CarriesEvent(s, e);
    }
  }

  function FirstPosts(posts: seq<Attempt>): seq<nat> {
    if posts == [] then []
    else
      var last := posts[|posts| - 1];
      FirstPosts(posts[..|posts| - 1]) + if last.number == 1 then [last.event] else []
  }

  lemma {:induction false} FirstPostsIncrease(posts: seq<Attempt>)
    requires Ascending(posts)
    ensures Increasing(FirstPosts(posts))
    ensures forall e :: e in FirstPosts(posts) ==> Attempt(e, 1) in posts
  {
    if posts == [] {
    } else {
      var n := |posts| - 1;
      FirstPostsIncrease(posts[..n]);
      if posts[n].number == 1 {
        var firsts := FirstPosts(posts[..n]);
        forall e | e in firsts ensures e < posts[n].event {
          var i :| 0 <= i < n && posts[i] == Attempt(e, 1);
          assert Before(posts[i], posts[n]);
        }
        NewestComesLast(firsts, posts[n].event);
      }
    }
  }

  /** First POSTs come in capture order, and an event's retry, its only one, directly follows its first POST. */
  lemma PostsFollowCaptures(config: Config, steps: seq<Step>)
    requires ValidConfig(config)
    ensures var posts := Run(config, INITIAL, steps).posts;
            && Increasing(FirstPosts(posts))
            && (forall i | 0 <= i < |posts| :: posts[i].number in {1, 2})
            && (forall i | 0 <= i < |posts| && posts[i].number == 2 ::
                  i > 0 && posts[i - 1] == Attempt(posts[i].event, 1))
            && (forall i, j | 0 <= i < |posts| && 0 <= j < |posts| && posts[i] == posts[j] :: i == j)
  {
    RunKeepsInv(config, steps);
    var posts := Run(config, INITIAL, steps).posts;
    FirstPostsIncrease(posts);
    forall i | 0 <= i < |posts| ensures posts[i].number in {1, 2} {
      assert posts[i] in posts;
    }
  }

  /** Captures balance once those ignored after close are counted. */
  lemma CapturesBalance(config: Config, steps: seq<Step>)
    requires ValidConfig(config)
    ensures var s := Run(config, INITIAL, steps);
            && s.captured == |s.fields.queue| + s.fields.dropped + s.fields.sent + s.fields.failed
                             + InFlightCount(s) + Tally(s.places, Ignored)
            && |s.fields.queue| <= config.maxQueueSize
            && s.fields.sent == Tally(s.places, Sent) && s.fields.failed == Tally(s.places, Failed)
            && s.fields.dropped == Tally(s.places, Dropped)
  {
    RunKeepsInv(config, steps);
  }

  /** An event counts as sent or failed as its own answers say, and those dropped or ignored were never POSTed. */
  lemma OutcomesFollowAnswers(config: Config, steps: seq<Step>, e: nat)
    requires ValidConfig(config) && e < Run(config, INITIAL, steps).captured
    ensures var s := Run(config, INITIAL, steps);
            && |s.places| == |s.answers| == s.captured
            && (s.places[e] == Sent ==> Verdict(s.answers[e], true))
            && (s.places[e] == Failed ==> Verdict(s.answers[e], false))
            && (s.places[e] in {Queued, Dropped, Ignored} ==> s.answers[e] == [])
  {
    RunKeepsInv(config, steps);
    RunKeepsAnswers(config, steps);
    var s := Run(config, INITIAL, steps);
    assert AnswersFit(s.places[e], s.answers[e]);
  }

  /** Closing strands what is queued: with no flush running, nothing is POSTed, sent or failed ever again. */
  lemma {:induction false} ClosedAndIdleIsFinal(config: Config, s: State, steps: seq<Step>)
    requires ValidConfig(config) && s.fields.isClosed && s.active == map[]
    ensures var s' := Run(config, s, steps);
            && s'.posts == s.posts && s'.active == map[] && s'.fields.isClosed
            && s'.fields.sent == s.fields.sent && s'.fields.failed == s.fields.failed
            && |s'.fields.queue| <= |s.fields.queue|
  {
    if steps == [] {
    } else {
      ClosedAndIdleIsFinal(config, s, steps[..|steps| - 1]);
    }
  }

  // ---- a running flush ends ----

  function Rank(pc: Pc): nat {
    match pc
    case First(_) => 4
    case Waiting(_) => 3
    case Second(_) => 2
    case Counted => 1
  }

  /** The steps a suspended flush call still needs if nothing is captured meanwhile. */
  function Work(s: State, call: nat): nat {
    if call in s.active then 4 * |s.fields.queue| + Rank(s.active[call]) else 0
  }

  /** The step that the event loop takes next for a suspended call; `status` is the answer, if one is due. */
  function Turn(s: State, call: nat, status: Option<int>): Step
    requires call in s.active
  {
    match s.active[call]
    case First(_) => Answer(call, status)
    case Waiting(_) => Wake(call)
    case Second(_) => Answer(call, status)
    case Counted => Resume(call)
  }

  function Drive(config: Config, s: State, call: nat, statuses: seq<Option<int>>): State
    requires ValidConfig(config)
    decreases |statuses|
  {
    if statuses == [] || call !in s.active then s
    else Drive(config, Next(config, s, Turn(s, call, statuses[0])), call, statuses[1..])
  }

  /** Whatever the answers, a flush left alone empties the queue and lowers the flag. */
  lemma {:induction false} FlushDrains(config: Config, s: State, call: nat, statuses: seq<Option<int>>)
    requires ValidConfig(config) && Inv(config, s) && Answered(s) && call in s.active && |statuses| >= Work(s, call)
    ensures var s' := Drive(config, s, call, statuses);
            s'.active == map[] && !s'.fields.isFlushing && s'.fields.queue == [] && s'.captured == s.captured
    decreases |statuses|
  {
    var step := Turn(s, call, statuses[0]);
    var next := Next(config, s, step);
    StepKeepsInv(config, s, step);
    StepKeepsAnswers(config, s, step);
    TurnWorks(config, s, call, statuses[0]);
    if call in next.active {
      FlushDrains(config, next, call, statuses[1..]);
    }
  }

  lemma TurnWorks(config: Config, s: State, call: nat, status: Option<int>)
    requires ValidConfig(config) && Inv(config, s) && Answered(s) && call in s.active
    ensures var s' := Next(config, s, Turn(s, call, status));
            && Work(s', call) < Work(s, call)
            && s'.captured == s.captured
            && (call !in s'.active ==> s'.active == map[] && !s'.fields.isFlushing && s'.fields.queue == [])
  {
    if s.active[call].Counted? && s.fields.queue != [] {
      OldestFirst(s);
    }
    if s.active[call].Counted? && s.fields.queue == [] {
      assert forall c :: c in s.active ==> c == call;
      assert s.active - {call} == map[];
    }
  }

  // ---- overflow ----

  /** The event captured first of those still queued. */
  ghost predicate IsOldest(s: State, o: nat) {
    o < |s.places| && s.places[o] == Queued && forall e | 0 <= e < o :: s.places[e] != Queued
  }

  lemma OldestHasLeastNumber(s: State)
    requires QueueOrdered(s) && PlacesMatch(s) && s.fields.queue != []
    ensures forall e | 0 <= e < s.fields.queue[0] && e < |s.places| :: s.places[e] != Queued
  {
    OldestFirst(s);
  }

  /** What a capture does to the events: a full queue drops its oldest or the newest, as configured, even after
      close; and a closed client ignores the new event instead of queueing it. */
  lemma OverflowPolicy(config: Config, steps: seq<Step>)
    requires ValidConfig(config)
    ensures var s := Run(config, INITIAL, steps);
            var after := Next(config, s, Capture).places;
            var place := if s.fields.isClosed then Ignored else Queued;
            && |s.places| == s.captured
            && (|s.fields.queue| < config.maxQueueSize ==> after == s.places + [place])
            && (|s.fields.queue| >= config.maxQueueSize && config.overflow == DropNewest ==>
                  after == s.places + [Dropped])
            && (|s.fields.queue| >= config.maxQueueSize && config.overflow == DropOldest ==>
                  exists o: nat :: IsOldest(s, o) && after == s.places[o := Dropped] + [place])
  {
    RunKeepsInv(config, steps);
    var s := Run(config, INITIAL, steps);
    if Full(config, s.fields) && config.overflow.DropOldest? {
      OldestFirst(s);
      assert s.places[s.fields.queue[0]] == Queued;
      OldestHasLeastNumber(s);
      assert IsOldest(s, s.fields.queue[0]);
    }
  }
}
