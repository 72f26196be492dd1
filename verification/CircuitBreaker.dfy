/** _CircuitBreaker: two mutable fields that always answer like a stateless question about the past. */
module CircuitBreaker {
  import opened Wrappers

  type Time = real

  const FAILURE_THRESHOLD: nat := 5
  const RECOVERY_TIMEOUT: Time := 60.0

  datatype Event = Success(at: Time) | Failure(at: Time) | Query(at: Time)

  // ------------------------------------------------------ the stateless question

  /** Failures recorded since the last success. */
  function Streak(h: seq<Event>): nat {
    if h == [] then 0
    else match h[|h| - 1]
         case Success(_) => 0
         case Failure(_) => Streak(h[..|h| - 1]) + 1
         case Query(_) => Streak(h[..|h| - 1])
  }

  function LastFailure(h: seq<Event>): Option<Time> {
    if h == [] then None
    else if h[|h| - 1].Failure? then Some(h[|h| - 1].at)
    else LastFailure(h[..|h| - 1])
  }

  /** At least five failures follow the last success, and the last failure is under a minute old. */
  predicate BlockedAt(h: seq<Event>, t: Time) {
    Streak(h) >= FAILURE_THRESHOLD && LastFailure(h).Some? && t - LastFailure(h).value < RECOVERY_TIMEOUT
  }

  /** Time never runs backwards along the events, starting at `from`. */
  predicate Ordered(events: seq<Event>, from: Time) {
    && (forall i | 0 <= i < |events| :: from <= events[i].at)
    && (forall i, j | 0 <= i < j < |events| :: events[i].at <= events[j].at)
  }

  predicate AllFailures(h: seq<Event>, a: nat, b: nat)
    requires b <= |h|
  {
    forall i | a <= i < b :: h[i].Failure?
  }

  /** The streak read off the recorded events directly: n failures at the end, and nothing but a success before them. */
  lemma {:induction false} StreakIs(h: seq<Event>, n: nat)
    requires forall i | 0 <= i < |h| :: !h[i].Query?
    ensures Streak(h) == n
            <==> n <= |h| && AllFailures(h, |h| - n, |h|) && (n == |h| || h[|h| - n - 1].Success?)
  {
    if h != [] {
      var init, last := h[..|h| - 1], h[|h| - 1];
      if last.Failure? {
        if n > 0 {
          StreakIs(init, n - 1);
        } else {
          assert Streak(h) > 0;
        }
      } else if n > 0 && n <= |h| {
        assert !h[|h| - 1].Failure?;
      }
    }
  }

  lemma {:induction false} LastFailureOfStreak(h: seq<Event>)
    requires Streak(h) > 0
    ensures LastFailure(h).Some?
  {
    if !h[|h| - 1].Failure? {
      LastFailureOfStreak(h[..|h| - 1]);
    }
  }

  /**
   * Once the minute is over nobody is held back until the next failure is recorded: the answer stays
   * no, however many requests ask.
   */
  lemma {:induction false} AdmitsAllAfterRecovery(h: seq<Event>, queries: seq<Event>, t: Time, later: Time)
    requires !BlockedAt(h, t) && t <= later
    requires forall i | 0 <= i < |queries| :: queries[i].Query?
    ensures !BlockedAt(h + queries, later)
  {
    QueriesIgnored(h, queries);
  }

  lemma {:induction false} QueriesIgnored(h: seq<Event>, queries: seq<Event>)
    requires forall i | 0 <= i < |queries| :: queries[i].Query?
    ensures Streak(h + queries) == Streak(h) && LastFailure(h + queries) == LastFailure(h)
  {
    if queries == [] {
      assert h + queries == h;
    } else {
      var n := |queries| - 1;
      assert (h + queries)[..|h + queries| - 1] == h + queries[..n];
      QueriesIgnored(h, queries[..n]);
    }
  }

  // -------------------------------------------------------------- the class

  class Breaker {
    var failures: nat
    var openedAt: Option<Time>
    ghost var history: seq<Event>
    ghost var clock: Time

    /** The fields, up to the reset that a question asked after the minute performs. */
    ghost predicate Valid()
      reads this
    {
      && failures == Streak(history)
      && (forall i | 0 <= i < |history| :: history[i].at <= clock)
      && (openedAt.Some? ==> failures >= FAILURE_THRESHOLD && openedAt == LastFailure(history))
      && (openedAt.None? ==> !BlockedAt(history, clock))
    }

    constructor (ghost start: Time)
      ensures Valid() && history == [] && clock == start
    {
      failures, openedAt := 0, None;
      history, clock := [], start;
    }

    /** The property that clears a field while it answers. */
    method IsOpen(now: Time) returns (open: bool)
      requires Valid() && clock <= now
      modifies this
      ensures Valid() && clock == now && history == old(history) + [Query(now)]
      ensures open == BlockedAt(old(history), now)
    {
      if openedAt.None? {
        open := false;
      } else if now - openedAt.value >= RECOVERY_TIMEOUT {
        openedAt := None;
        open := false;
      } else {
        open := true;
      }
      history, clock := history + [Query(now)], now;
      assert history[..|history| - 1] == old(history);
    }

    method RecordSuccess(ghost now: Time)
      requires Valid() && clock <= now
      modifies this
      ensures Valid() && clock == now && history == old(history) + [Success(now)]
    {
      failures := 0;
      openedAt := None;
      history, clock := history + [Success(now)], now;
    }

    method RecordFailure(now: Time)
      requires Valid() && clock <= now
      modifies this
      ensures Valid() && clock == now && history == old(history) + [Failure(now)]
    {
      failures := failures + 1;
      if failures >= FAILURE_THRESHOLD {
        openedAt := Some(now);
      }
      history, clock := history + [Failure(now)], now;
      assert history[..|history| - 1] == old(history);
    }

    /** Any run of successes, failures and questions: every question is answered from the past alone. */
    method Replay(events: seq<Event>) returns (answers: seq<bool>)
      requires Valid() && Ordered(events, clock)
      modifies this
      ensures Valid() && history == old(history) + events
      ensures clock == if events == [] then old(clock) else events[|events| - 1].at
      ensures |answers| == |events|
      ensures forall i | 0 <= i < |events| ::
                answers[i] == (events[i].Query? && BlockedAt(old(history) + events[..i], events[i].at))
    {
      answers := [];
      for i := 0 to |events|
        invariant Valid() && history == old(history) + events[..i]
        invariant clock == if i == 0 then old(clock) else events[i - 1].at
        invariant |answers| == i
        invariant forall j | 0 <= j < i ::
                    answers[j] == (events[j].Query? && BlockedAt(old(history) + events[..j], events[j].at))
      {
        assert events[..i + 1] == events[..i] + [events[i]];
        var answer := false;
        match events[i] {
          case Success(at) => RecordSuccess(at);
          case Failure(at) => RecordFailure(at);
          case Query(at) => answer := IsOpen(at);
        }
        answers := answers + [answer];
      }
      assert events[..|events|] == events;
    }
  }

  // --------------------------------------------------- how fast failures can come

  /**
   * A call whose outcome the breaker counted, listed in order of completion. `seen` is how many of the
   * listed calls had completed when this one asked the breaker at `start`.
   */
  datatype Call = Call(start: Time, seen: nat, end: Time, ok: bool)

  function Recorded(calls: seq<Call>): (h: seq<Event>)
    ensures |h| == |calls|
  {
    seq(|calls|, i requires 0 <= i < |calls| =>
      if calls[i].ok then Success(calls[i].end) else Failure(calls[i].end))
  }

  /** The breaker let call k in, on the outcomes known at its start. */
  predicate Admitted(calls: seq<Call>, k: nat)
    requires k < |calls|
  {
    && calls[k].seen <= k
    && calls[k].start <= calls[k].end
    && (calls[k].seen > 0 ==> calls[calls[k].seen - 1].end <= calls[k].start)
    && !BlockedAt(Recorded(calls[..calls[k].seen]), calls[k].start)
  }

  /** Any run of calls, overlapping or not. */
  predicate Run(calls: seq<Call>) {
    && (forall k | 0 <= k < |calls| :: Admitted(calls, k))
    && (forall i, j | 0 <= i < j < |calls| :: calls[i].end <= calls[j].end)
  }

  predicate Streaking(calls: seq<Call>, a: nat, b: nat)
    requires b <= |calls|
  {
    forall i | a <= i < b :: !calls[i].ok
  }

  predicate Sequential(calls: seq<Call>, a: nat, b: nat)
    requires b <= |calls|
  {
    forall i | a <= i < b :: calls[i].seen == i
  }

  lemma {:induction false} StreakAtLeast(calls: seq<Call>, a: nat)
    requires a <= |calls| && Streaking(calls, a, |calls|)
    ensures Streak(Recorded(calls)) >= |calls| - a
    ensures a < |calls| ==> LastFailure(Recorded(calls)) == Some(calls[|calls| - 1].end)
  {
    var h := Recorded(calls);
    if a < |calls| {
      var n := |calls| - 1;
      assert h[..n] == Recorded(calls[..n]);
      StreakAtLeast(calls[..n], a);
      assert !calls[n].ok;
    }
  }

  /**
   * A call that started after five failures in a row were recorded ends at least a minute after the
   * last of them. Only the call itself must not overlap the failure before it.
   */
  lemma {:induction false} FailureSpacing(calls: seq<Call>, k: nat)
    requires Run(calls) && 5 <= k < |calls|
    requires Streaking(calls, k - 5, k) && calls[k].seen == k
    ensures calls[k].end - calls[k - 1].end >= 60.0
  {
    assert Admitted(calls, k);
    var past := calls[..k];
    assert forall i | k - FAILURE_THRESHOLD <= i < k :: past[i] == calls[i];
    StreakAtLeast(past, k - FAILURE_THRESHOLD);
  }

  lemma {:induction false} StreakTakesTime(calls: seq<Call>, a: nat, b: nat)
    requires Run(calls) && a < b <= |calls|
    requires Streaking(calls, a, b) && Sequential(calls, a, b)
    ensures (b - a - FAILURE_THRESHOLD) as real * RECOVERY_TIMEOUT <= calls[b - 1].end - calls[a].end
  {
    if b - a > FAILURE_THRESHOLD {
      StreakTakesTime(calls, a, b - 1);
      FailureSpacing(calls, b - 1);
    }
  }

  /** In a span of length T without a success, at most 5 + floor(T / 60) failures of sequential calls. */
  lemma {:induction false} FailureDensity(calls: seq<Call>, a: nat, b: nat)
    requires Run(calls) && a < b <= |calls|
    requires Streaking(calls, a, b) && Sequential(calls, a, b)
    ensures b - a <= 5 + ((calls[b - 1].end - calls[a].end) / 60.0).Floor
  {
    StreakTakesTime(calls, a, b);
    var span := calls[b - 1].end - calls[a].end;
    assert (b - a - FAILURE_THRESHOLD) as real <= span / RECOVERY_TIMEOUT;
  }

  /** Five failures at once, then one at each minute. */
  function Fastest(n: nat, t: Time): seq<Call> {
    seq(n, i requires 0 <= i < n => Call(Tick(t, i), i, Tick(t, i), false))
  }

  function Tick(t: Time, i: nat): Time {
    if i < FAILURE_THRESHOLD then t else t + (i - 4) as real * RECOVERY_TIMEOUT
  }

  /** The bound is attained, at every length. */
  lemma {:induction false} DensityIsTight(n: nat, t: Time)
    requires n >= 5
    ensures var calls := Fastest(n, t);
            Run(calls) && Streaking(calls, 0, n) && Sequential(calls, 0, n)
            && n == 5 + ((calls[n - 1].end - calls[0].end) / 60.0).Floor
  {
    var calls := Fastest(n, t);
    forall k: nat | k < n ensures Admitted(calls, k) {
      StreakAtLeast(calls[..k], 0);
      StreakAtMost(calls[..k]);
    }
  }

  lemma {:induction false} StreakAtMost(calls: seq<Call>)
    ensures Streak(Recorded(calls)) <= |calls|
  {
    var h := Recorded(calls);
    if calls != [] {
      var n := |calls| - 1;
      assert h[..n] == Recorded(calls[..n]);
      StreakAtMost(calls[..n]);
    }
  }

  /** Overlapping calls escape the bound: all of them were admitted before the first failure. */
  lemma {:induction false} OverlapEscapes(n: nat, t: Time)
    ensures var calls := seq(n, i => Call(t, 0, t, false));
            Run(calls) && Streaking(calls, 0, n)
  {
  }
}
