/** What the two SDK clients share: queue settings, how an answer is classified, and tallies over event histories. */
module Delivery {
  import opened Text

  datatype Overflow = DropOldest | DropNewest

  datatype Config = Config(maxQueueSize: int, overflow: Overflow)

  /** Client construction rejects anything else. */
  predicate ValidConfig(config: Config) {
    config.maxQueueSize >= 1
  }

  datatype Outcome = Ok | Retry | Reject

  /** No response at all (an exception) is transient, like a server error. */
  function Classify(status: Option<int>): Outcome {
    if status.None? then Retry
    else if 200 <= status.value < 300 then Ok
    else if status.value >= 500 then Retry
    else Reject
  }

  // ---- what an answer means, by its status ----

  predicate Accepted(status: Option<int>) {
    status.Some? && 200 <= status.value <= 299
  }

  /** No answer, or a server error: worth one more try. */
  predicate Transient(status: Option<int>) {
    status.None? || 500 <= status.value
  }

  /** An answer is accepted, transient or final, as its status says. */
  lemma OutcomeByStatus(status: Option<int>)
    ensures Classify(status) == Ok <==> Accepted(status)
    ensures Classify(status) == Retry <==> Transient(status)
    ensures !(Accepted(status) && Transient(status))
  {
  }

  /** What the first and the second POST of an event would be answered. */
  type Answers = (Option<int>, Option<int>)

  function Delivered(answers: Answers): bool {
    Accepted(answers.0) || (Transient(answers.0) && Accepted(answers.1))
  }

  /** The answers an event got say how it ended: a second POST follows only a transient first answer, and a
      transient first answer is not final. */
  predicate Verdict(answers: seq<Option<int>>, ok: bool) {
    && 1 <= |answers| <= 2
    && (|answers| == 2 <==> Transient(answers[0]))
    && (ok <==> Accepted(answers[|answers| - 1]))
  }

  /** A first answer that asks for a retry, and nothing more. */
  predicate AwaitsRetry(answers: seq<Option<int>>) {
    |answers| == 1 && Transient(answers[0])
  }

  function DeliveredCount(answers: seq<Answers>): nat {
    if answers == [] then 0
    else DeliveredCount(answers[..|answers| - 1]) + if Delivered(answers[|answers| - 1]) then 1 else 0
  }

  ghost predicate Increasing(s: seq<nat>) {
    forall i, j | 0 <= i < j < |s| :: s[i] < s[j]
  }

  lemma NewestComesLast(all: seq<nat>, next: nat)
    requires Increasing(all) && forall e :: e in all ==> e < next
    ensures Increasing(all + [next]) && forall e :: e in all + [next] ==> e < next + 1
  {
    forall i, j | 0 <= i < j < |all + [next]| ensures (all + [next])[i] < (all + [next])[j] {
      assert all[i] in all;
    }
  }

  function Tally<T(==)>(places: seq<T>, place: T): nat {
    if places == [] then 0
    else Tally(places[..|places| - 1], place) + if places[|places| - 1] == place then 1 else 0
  }

  lemma {:induction false} TallyAfterChange<T>(places: seq<T>, i: nat, place: T, counted: T)
    requires i < |places|
    ensures Tally(places[i := place], counted)
            == Tally(places, counted) - (if places[i] == counted then 1 else 0) + (if place == counted then 1 else 0)
  {
    var n := |places| - 1;
    if i == n {
      assert places[i := place][..n] == places[..n];
    } else {
      TallyAfterChange(places[..n], i, place, counted);
      assert places[i := place][..n] == places[..n][i := place];
    }
  }

  lemma TallyAfterAppend<T>(places: seq<T>, place: T, counted: T)
    ensures Tally(places + [place], counted) == Tally(places, counted) + if place == counted then 1 else 0
  {
    assert (places + [place])[..|places|] == places;
  }
}
