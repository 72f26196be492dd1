/** The failure bounds of the breaker, for the calls that a client module really makes one after the other. */
module ClientSpacing {
  import opened Wrappers
  import opened CircuitBreaker
  import opened TokenCaches
  import opened Clients

  /** What a turn makes the breaker record. */
  function MarkOf(client: Client, key: Key, w: World, t: Turn): Mark {
    if BlockedAt(w.events + t.before, t.at) then Unmarked
    else if NeedsToken(client, key, w.acts, t) && !t.auth.Granted? then Unmarked
    else Sorted(client, t.reply).0
  }

  /** No other task uses the breaker in the meantime. */
  predicate Alone(turns: seq<Turn>) {
    forall i | 0 <= i < |turns| :: turns[i].before == [] && turns[i].during == []
  }

  /** The recorded calls among the first n turns, each of which began when all before it were over. */
  function Calls(client: Client, key: Key, w: World, turns: seq<Turn>, n: nat): seq<Call>
    requires n <= |turns|
  {
    if n == 0 then []
    else
      Extended(Calls(client, key, w, turns, n - 1), turns[n - 1],
               MarkOf(client, key, WorldAfter(client, key, w, turns, n - 1), turns[n - 1]))
  }

  function Extended(calls: seq<Call>, t: Turn, mark: Mark): seq<Call> {
    match mark
    case Unmarked => calls
    case Won => calls + [Call(t.at, |calls|, t.done, true)]
    case Lost => calls + [Call(t.at, |calls|, t.done, false)]
  }

  lemma {:induction false} TurnEvents(client: Client, key: Key, w: World, t: Turn)
    requires t.before == [] && t.during == []
    ensures Called(client, key, w, t).0.events == w.events + [Query(t.at)] + Marked(MarkOf(client, key, w, t), t.done)
  {
    assert w.events + [] == w.events;
    var asked := w.events + [Query(t.at)];
    assert asked + [] == asked;
  }

  /** Two histories that the breaker cannot tell apart. */
  predicate SameAnswers(h: seq<Event>, k: seq<Event>) {
    Streak(h) == Streak(k) && LastFailure(h) == LastFailure(k)
  }

  lemma {:induction false} Append(h: seq<Event>, e: Event)
    ensures Streak(h + [e]) == match e case Success(_) => 0 case Failure(_) => Streak(h) + 1 case Query(_) => Streak(h)
    ensures LastFailure(h + [e]) == if e.Failure? then Some(e.at) else LastFailure(h)
  {
    assert (h + [e])[..|h|] == h;
  }

  lemma {:induction false} RecordedSnoc(calls: seq<Call>, c: Call)
    ensures Recorded(calls + [c]) == Recorded(calls) + [if c.ok then Success(c.end) else Failure(c.end)]
  {
  }

  predicate Alike(h: seq<Event>, calls: seq<Call>) {
    SameAnswers(h, Recorded(calls))
  }

  lemma {:induction false} AnswerStep(h: seq<Event>, calls: seq<Call>, t: Turn, mark: Mark)
    requires Alike(h, calls)
    ensures Alike(h + [Query(t.at)] + Marked(mark, t.done), Extended(calls, t, mark))
  {
    var asked := h + [Query(t.at)];
    Append(h, Query(t.at));
    match mark
    case Unmarked => assert asked + [] == asked;
    case Won =>
      Append(asked, Success(t.done));
      RecordedSnoc(calls, Call(t.at, |calls|, t.done, true));
      Append(Recorded(calls), Success(t.done));
    case Lost =>
      Append(asked, Failure(t.done));
      RecordedSnoc(calls, Call(t.at, |calls|, t.done, false));
      Append(Recorded(calls), Failure(t.done));
  }

  /** The events of the breaker once the first n turns are over. */
  function EventsAfter(client: Client, key: Key, acts: seq<Act>, turns: seq<Turn>, n: nat): seq<Event>
    requires n <= |turns|
  {
    WorldAfter(client, key, World([], acts), turns, n).events
  }

  lemma {:induction false} EventsStep(client: Client, key: Key, acts: seq<Act>, turns: seq<Turn>, n: nat)
    requires n < |turns| && Alone(turns)
    ensures var mark := MarkOf(client, key, WorldAfter(client, key, World([], acts), turns, n), turns[n]);
            && EventsAfter(client, key, acts, turns, n + 1)
               == EventsAfter(client, key, acts, turns, n) + [Query(turns[n].at)] + Marked(mark, turns[n].done)
            && (!mark.Unmarked? ==> !BlockedAt(EventsAfter(client, key, acts, turns, n), turns[n].at))
  {
    var before := WorldAfter(client, key, World([], acts), turns, n);
    TurnEvents(client, key, before, turns[n]);
    assert before.events + [] == before.events;
  }

  /** The mark of turn n, and the history and the calls before it. */
  datatype Stage = Stage(h: seq<Event>, calls: seq<Call>, mark: Mark)

  function StageAt(client: Client, key: Key, acts: seq<Act>, turns: seq<Turn>, n: nat): Stage
    requires n < |turns|
  {
    var w := World([], acts);
    Stage(EventsAfter(client, key, acts, turns, n), Calls(client, key, w, turns, n),
          MarkOf(client, key, WorldAfter(client, key, w, turns, n), turns[n]))
  }

  lemma {:induction false} StageStep(client: Client, key: Key, acts: seq<Act>, turns: seq<Turn>, n: nat, s: Stage)
    requires n < |turns| && Alone(turns) && s == StageAt(client, key, acts, turns, n)
    ensures EventsAfter(client, key, acts, turns, n + 1) == s.h + [Query(turns[n].at)] + Marked(s.mark, turns[n].done)
    ensures Calls(client, key, World([], acts), turns, n + 1) == Extended(s.calls, turns[n], s.mark)
    ensures !s.mark.Unmarked? ==> !BlockedAt(s.h, turns[n].at)
  {
    EventsStep(client, key, acts, turns, n);
  }

  lemma {:induction false} StageAlike(client: Client, key: Key, acts: seq<Act>, turns: seq<Turn>, n: nat, s: Stage,
                                      h: seq<Event>, calls: seq<Call>)
    requires n < |turns| && Alone(turns) && s == StageAt(client, key, acts, turns, n) && Alike(s.h, s.calls)
    requires h == EventsAfter(client, key, acts, turns, n + 1)
             && calls == Calls(client, key, World([], acts), turns, n + 1)
    ensures Alike(h, calls)
  {
    StageStep(client, key, acts, turns, n, s);
    AnswerStep(s.h, s.calls, turns[n], s.mark);
  }

  /** The history the breaker keeps and the list of recorded calls answer alike. */
  lemma {:induction false} CallsAnswer(client: Client, key: Key, acts: seq<Act>, turns: seq<Turn>, n: nat,
                                       h: seq<Event>, calls: seq<Call>)
    requires n <= |turns| && Alone(turns)
    requires h == EventsAfter(client, key, acts, turns, n) && calls == Calls(client, key, World([], acts), turns, n)
    ensures Alike(h, calls)
  {
    if n > 0 {
      var s := StageAt(client, key, acts, turns, n - 1);
      CallsAnswer(client, key, acts, turns, n - 1, s.h, s.calls);
      StageAlike(client, key, acts, turns, n - 1, s, h, calls);
    }
  }

  predicate OneByOne(calls: seq<Call>, to: CircuitBreaker.Time) {
    CircuitBreaker.Run(calls) && Sequential(calls, 0, |calls|) && (calls != [] ==> calls[|calls| - 1].end <= to)
  }

  lemma {:induction false} AddCall(calls: seq<Call>, c: Call, from: CircuitBreaker.Time, to: CircuitBreaker.Time)
    requires OneByOne(calls, from) && c.seen == |calls| && from <= c.start <= c.end <= to
    requires !BlockedAt(Recorded(calls), c.start)
    ensures OneByOne(calls + [c], to)
  {
    var longer := calls + [c];
    forall k: nat | k < |longer| ensures Admitted(longer, k) {
      assert k < |calls| ==> Admitted(calls, k) && longer[..longer[k].seen] == calls[..calls[k].seen];
      assert longer[..|calls|] == calls;
    }
  }

  lemma {:induction false} CallStep(calls: seq<Call>, h: seq<Event>, t: Turn, mark: Mark, from: CircuitBreaker.Time)
    requires OneByOne(calls, from) && Alike(h, calls) && from <= t.at <= t.done
    requires !mark.Unmarked? ==> !BlockedAt(h, t.at)
    ensures OneByOne(Extended(calls, t, mark), t.done)
  {
    if !mark.Unmarked? {
      AddCall(calls, Call(t.at, |calls|, t.done, mark.Won?), from, t.done);
    }
  }

  lemma {:induction false} TurnOrder(turns: seq<Turn>, from: CircuitBreaker.Time, n: nat)
    requires n < |turns| && Timed(turns, from, n + 1)
    ensures Timed(turns, from, n) && Opening(turns, from, n) <= turns[n].at <= turns[n].done
  {
  }

  lemma {:induction false} StageCalls(client: Client, key: Key, acts: seq<Act>, turns: seq<Turn>,
                                      from: CircuitBreaker.Time, n: nat, s: Stage, calls: seq<Call>)
    requires n < |turns| && Alone(turns) && s == StageAt(client, key, acts, turns, n)
    requires calls == Calls(client, key, World([], acts), turns, n + 1)
    requires OneByOne(s.calls, from) && from <= turns[n].at <= turns[n].done
    ensures OneByOne(calls, turns[n].done)
  {
    StageStep(client, key, acts, turns, n, s);
    CallsAnswer(client, key, acts, turns, n, s.h, s.calls);
    CallStep(s.calls, s.h, turns[n], s.mark, from);
  }

  /** The recorded calls of a worker's turns are a run of calls that do not overlap. */
  lemma {:induction false} TurnsAreCalls(client: Client, key: Key, acts: seq<Act>, turns: seq<Turn>,
                                         from: CircuitBreaker.Time, n: nat, calls: seq<Call>)
    requires n <= |turns| && Alone(turns) && Timed(turns, from, n)
    requires calls == Calls(client, key, World([], acts), turns, n)
    ensures OneByOne(calls, Opening(turns, from, n))
  {
    if n > 0 {
      var s := StageAt(client, key, acts, turns, n - 1);
      TurnOrder(turns, from, n - 1);
      TurnsAreCalls(client, key, acts, turns, from, n - 1, s.calls);
      StageCalls(client, key, acts, turns, Opening(turns, from, n - 1), n - 1, s, calls);
    }
  }

  /**
   * Whatever mix of retry loops and stages a worker runs one after the other, from an empty breaker: in a
   * span of length T without a recorded success the provider fails it at most 5 + floor(T / 60) times.
   */
  lemma {:induction false} WorkerFailureDensity(client: Client, key: Key, acts: seq<Act>, turns: seq<Turn>,
                                                from: CircuitBreaker.Time, a: nat, b: nat)
    requires Alone(turns) && Schedule(turns, from)
    requires var calls := Calls(client, key, World([], acts), turns, |turns|);
             a < b <= |calls| && Streaking(calls, a, b)
    ensures var calls := Calls(client, key, World([], acts), turns, |turns|);
            b - a <= 5 + ((calls[b - 1].end - calls[a].end) / 60.0).Floor
  {
    var calls := Calls(client, key, World([], acts), turns, |turns|);
    TurnsAreCalls(client, key, acts, turns, from, |turns|, calls);
    FailureDensity(calls, a, b);
  }
}
