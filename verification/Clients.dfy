/** The three model clients: one call behind breaker and token cache, the retry loop, the three stages. */
module Clients {
  import opened Wrappers
  import opened CircuitBreaker
  import opened TokenCaches
  import PyText
  import opened JsonScan
  import opened Truncation
  import opened ExtractJson

  datatype Client = Anthropic | OpenAI | Timely

  /** What came back from the completion endpoint. */
  datatype Reply =
    | Answered(text: string)
    | Unusable // a success status whose body holds no readable text
    | Undecodable // a success status whose body cannot be decoded at all
    | Refused(code: nat, credit: bool) // any other status; credit: the message mentions credit
    | TimedOut
    | Unreachable
    | Crashed // an exception no handler names

  /** What came back from TimelyGPT's authentication endpoint. */
  datatype AuthReply =
    | Granted(token: Token)
    | Tokenless
    | AuthRefused(code: nat)
    | AuthTimedOut
    | AuthUnreachable
    | AuthCrashed

  datatype Outcome = Text(text: string) | Raised(code: nat) | Escaped

  datatype Mark = Won | Lost | Unmarked

  /** What happens around one attempt; the events belong to other tasks using the same breaker. */
  datatype Turn = Turn(
    before: seq<Event>, at: CircuitBreaker.Time,
    looked: TokenCaches.Time, auth: AuthReply, granted: TokenCaches.Time,
    during: seq<Event>, done: CircuitBreaker.Time, reply: Reply)

  /** The past of the breaker and of the token cache. */
  datatype World = World(events: seq<Event>, acts: seq<Act>)

  // ---------------------------------------------------------------- one call

  /** How each client sorts a reply: what the breaker is told, and what the caller gets. */
  function Sorted(client: Client, reply: Reply): (Mark, Outcome) {
    match reply
    case Answered(text) => (Won, Text(text))
    case Unusable => (Won, if client.Timely? then Raised(502) else Escaped)
    case Undecodable => (if client.Timely? then Won else Unmarked, Escaped) // the SDKs decode before they return
    case TimedOut => (Lost, Raised(504))
    case Unreachable => (Lost, Raised(502))
    case Crashed => (Unmarked, Escaped)
    case Refused(code, credit) =>
      if code == 401 || code == 429 then (Unmarked, Raised(code))
      else if Billing(client, code, credit) then (Unmarked, Raised(503))
      else (Lost, Raised(502))
  }

  predicate Billing(client: Client, code: nat, credit: bool) {
    if client.Anthropic? then code == 400 && credit else code == 402 || code == 403
  }

  function AuthFailure(auth: AuthReply): Outcome {
    match auth
    case AuthTimedOut => Raised(504)
    case AuthUnreachable => Raised(502)
    case AuthRefused(code) => Raised(if code == 401 then 401 else 502)
    case Tokenless => Raised(502)
    case _ => Escaped
  }

  function Marked(mark: Mark, at: CircuitBreaker.Time): seq<Event> {
    match mark
    case Won => [Success(at)]
    case Lost => [Failure(at)]
    case Unmarked => []
  }

  predicate NeedsToken(client: Client, key: Key, acts: seq<Act>, t: Turn) {
    client.Timely? && Serving(acts, key, t.looked).None?
  }

  function Completed(client: Client, key: Key, w: World, t: Turn): (World, Outcome) {
    var (mark, outcome) := Sorted(client, t.reply);
    var evicted := if client.Timely? && t.reply.Refused? && t.reply.code == 401 then [Evict(key)] else [];
    (World(w.events + t.during + Marked(mark, t.done), w.acts + evicted), outcome)
  }

  /** One call as a function of the past: blocked, or authenticated and completed. */
  function Called(client: Client, key: Key, w: World, t: Turn): (World, Outcome) {
    var past := w.events + t.before;
    var asked := w.(events := past + [Query(t.at)]);
    if BlockedAt(past, t.at) then (asked, Raised(503))
    else if !NeedsToken(client, key, w.acts, t) then Completed(client, key, asked, t)
    else if t.auth.Granted? then
      Completed(client, key, asked.(acts := w.acts + [Grant(key, t.auth.token, t.granted)]), t)
    else (asked, AuthFailure(t.auth))
  }

  predicate Between(events: seq<Event>, from: CircuitBreaker.Time, to: CircuitBreaker.Time) {
    from <= to && Ordered(events, from) && (forall i | 0 <= i < |events| :: events[i].at <= to)
  }

  predicate WellTimed(t: Turn, from: CircuitBreaker.Time) {
    Between(t.before, from, t.at) && Between(t.during, t.at, t.done)
  }

  // ------------------------------------------------------------ the retry loop

  datatype Result<J> = Parsed(value: Extracted<J>) | Failed(code: nat) | Crash

  function Judged<J>(outcome: Outcome, parse: string -> Extracted<J>): Result<J> {
    match outcome
    case Escaped => Crash
    case Raised(code) => Failed(code)
    case Text(text) =>
      var parsed := parse(text);
      if parsed.GenerationError? then Failed(500) else Parsed(parsed)
  }

  /** The parser in use: extract_json over json.loads. */
  function Reader<J>(loads: string -> Option<J>): string -> Extracted<J> {
    raw => Extract(raw, loads)
  }

  /**
   * A fenced question list that was cut short is not retried: if any question is whole and readable, the
   * loop accepts exactly the questions printed whole.
   */
  lemma {:induction false} TruncatedReplyAccepted<J>(before: string, tag: string, head: string, items: seq<Item>,
                                                     k: nat, loads: string -> Option<J>)
    requires PyText.AllSpace(before) && PyText.Lacks(tag, '\n')
    requires ListHead(head) && PrintedList(items) && 0 < k <= |Body(items)|
    requires loads(Unfence(before + (FENCE + tag + "\n" + (head + Body(items)[..k])))).None?
    ensures var raw := before + (FENCE + tag + "\n" + (head + Body(items)[..k]));
            var whole := ParseAll(Objects(items)[..WholeBefore(items, k)], loads);
            Judged(Text(raw), Reader(loads)) == if whole == [] then Failed(500) else Parsed(Questions(whole))
  {
    FencedCutRecovers(before, tag, head, items, k, loads);
  }

  /** The same for a reply that was never fenced. */
  lemma {:induction false} TruncatedPlainReplyAccepted<J>(before: string, head: string, items: seq<Item>, k: nat,
                                                          loads: string -> Option<J>)
    requires PrintedList(items) && 0 < k <= |Body(items)|
    requires PyText.AllSpace(before) && ListHead(head) && !PyText.IsSpace(head[0])
             && !(FENCE <= head + Body(items)[..k])
    requires loads(Unfence(before + (head + Body(items)[..k]))).None?
    ensures var raw := before + (head + Body(items)[..k]);
            var whole := ParseAll(Objects(items)[..WholeBefore(items, k)], loads);
            Judged(Text(raw), Reader(loads)) == if whole == [] then Failed(500) else Parsed(Questions(whole))
  {
    PlainCutRecovers(before, head, items, k, loads);
  }

  /** Client faults and a closed service end the loop; every other GenerationError is retried. */
  predicate Retried<J>(r: Result<J>) {
    r.Failed? && r.code != 401 && r.code != 429 && r.code != 503
  }

  /** The world once the first n attempts are over. */
  function WorldAfter(client: Client, key: Key, w: World, turns: seq<Turn>, n: nat): World
    requires n <= |turns|
  {
    if n == 0 then w else Called(client, key, WorldAfter(client, key, w, turns, n - 1), turns[n - 1]).0
  }

  function OutcomeAt(client: Client, key: Key, w: World, turns: seq<Turn>, i: nat): Outcome
    requires i < |turns|
  {
    Called(client, key, WorldAfter(client, key, w, turns, i), turns[i]).1
  }

  /** What attempt i yields, all earlier ones having been made. */
  function ResultAt<J>(client: Client, key: Key, w: World, turns: seq<Turn>, parse: string -> Extracted<J>,
                       i: nat): Result<J>
    requires i < |turns|
  {
    Judged(OutcomeAt(client, key, w, turns, i), parse)
  }

  function Pow2(n: nat): (p: nat)
    ensures p >= 1
  {
    if n == 0 then 1 else 2 * Pow2(n - 1)
  }

  function Max(a: int, b: int): int {
    if a >= b then a else b
  }

  datatype Run<J> = Run(attempts: nat, slept: nat, result: Result<J>)

  predicate AllRetried<J>(client: Client, key: Key, w: World, turns: seq<Turn>, parse: string -> Extracted<J>, n: int)
    requires n <= |turns|
  {
    forall i | 0 <= i < n :: Retried(ResultAt(client, key, w, turns, parse, i))
  }

  /** The first attempt that is not retried gives the result; with none, 500 after the last of them. */
  ghost predicate GoodRun<J>(client: Client, key: Key, w: World, turns: seq<Turn>, retries: int,
                             parse: string -> Extracted<J>, run: Run<J>) {
    && run.attempts <= |turns| && run.attempts <= Max(retries + 1, 0)
    && AllRetried(client, key, w, turns, parse, run.attempts - 1)
    && if run.attempts > 0 && !Retried(ResultAt(client, key, w, turns, parse, run.attempts - 1)) then
         && run.result == ResultAt(client, key, w, turns, parse, run.attempts - 1)
         && run.slept == Pow2(run.attempts - 1) - 1
       else
         && run.result == Failed(500)
         && run.attempts == Max(retries + 1, 0)
         && run.slept == Pow2(Max(retries, 0)) - 1
  }

  /** The loop has come to attempt n: all earlier ones were retried, after this much sleep. */
  predicate Going<J>(client: Client, key: Key, w: World, turns: seq<Turn>, retries: int,
                     parse: string -> Extracted<J>, n: int, slept: int) {
    && retries < |turns| && 0 <= n <= Max(retries + 1, 0)
    && AllRetried(client, key, w, turns, parse, n)
    && slept == Pow2(if n <= retries then n else Max(retries, 0)) - 1
  }

  lemma {:induction false} GoesOn<J>(client: Client, key: Key, w: World, turns: seq<Turn>, retries: int,
                                     parse: string -> Extracted<J>, n: nat, slept: nat)
    requires Going(client, key, w, turns, retries, parse, n, slept) && n <= retries
    ensures var r := ResultAt(client, key, w, turns, parse, n);
            var more := if n < retries then slept + Pow2(n) else slept;
            if Retried(r) then Going(client, key, w, turns, retries, parse, n + 1, more)
            else GoodRun(client, key, w, turns, retries, parse, Run(n + 1, slept, r))
  {
  }

  lemma {:induction false} RunsOut<J>(client: Client, key: Key, w: World, turns: seq<Turn>, retries: int,
                                      parse: string -> Extracted<J>, n: nat, slept: nat)
    requires Going(client, key, w, turns, retries, parse, n, slept) && n > retries
    ensures GoodRun(client, key, w, turns, retries, parse, Run(n, slept, Failed(500)))
  {
  }

  lemma {:induction false} Pow2Monotone(a: nat, b: nat)
    requires a <= b
    ensures Pow2(a) <= Pow2(b)
  {
    if a < b {
      Pow2Monotone(a, b - 1);
    }
  }

  /** The back-off never exceeds 2^retries - 1 seconds, and reaches it exactly when retries retried failures occur. */
  lemma {:induction false} RetryBounds<J>(client: Client, key: Key, w: World, turns: seq<Turn>, retries: nat,
                                          parse: string -> Extracted<J>, run: Run<J>)
    requires GoodRun(client, key, w, turns, retries, parse, run)
    ensures 1 <= run.attempts <= retries + 1
    ensures run.slept <= Pow2(retries) - 1
    ensures run.slept == Pow2(retries) - 1 <==> run.attempts == retries + 1
  {
    Pow2Monotone(run.attempts - 1, retries);
    if run.attempts - 1 < retries {
      Pow2Monotone(run.attempts, retries);
    }
  }

  /** The description leaves no choice: one run fits it. */
  lemma {:induction false} GoodRunUnique<J>(client: Client, key: Key, w: World, turns: seq<Turn>, retries: int,
                                            parse: string -> Extracted<J>,
                                            a: Run<J>, b: Run<J>)
    requires GoodRun(client, key, w, turns, retries, parse, a) && GoodRun(client, key, w, turns, retries, parse, b)
    ensures a == b
  {
    if a.attempts > 0 && b.attempts > 0 {
      var lastOfA := ResultAt(client, key, w, turns, parse, a.attempts - 1);
      var lastOfB := ResultAt(client, key, w, turns, parse, b.attempts - 1);
    }
  }

  /** With the hosted SDKs an error reply is retried exactly when it counts against the breaker. */
  lemma {:induction false} RetriedIffCounted<J>(client: Client, reply: Reply, parse: string -> Extracted<J>)
    requires Sorted(client, reply).1.Raised?
    ensures Retried(Judged(Sorted(client, reply).1, parse))
            <==> Sorted(client, reply).0.Lost? || (client.Timely? && reply.Unusable?)
  {
  }

  /** A reply that cannot be parsed is retried, but clears the breaker's streak. */
  lemma {:induction false} ParseFailureClearsStreak<J>(client: Client, key: Key, w: World, t: Turn,
                                                       parse: string -> Extracted<J>)
    requires Called(client, key, w, t).1.Text?
    ensures Streak(Called(client, key, w, t).0.events) == 0
  {
    var after := Called(client, key, w, t).0.events;
    assert after[|after| - 1] == Success(t.done);
  }

  /** An open breaker ends the loop at its first attempt: no sleep, no token, nothing recorded. */
  lemma {:induction false} OpenBreakerFailsFast<J>(client: Client, key: Key, w: World, turns: seq<Turn>, retries: nat,
                                                   parse: string -> Extracted<J>, run: Run<J>)
    requires GoodRun(client, key, w, turns, retries, parse, run) && run.attempts > 0
    requires BlockedAt(w.events + turns[0].before, turns[0].at)
    ensures run == Run(1, 0, Failed(503))
    ensures WorldAfter(client, key, w, turns, 1) == World(w.events + turns[0].before + [Query(turns[0].at)], w.acts)
  {
    assert ResultAt(client, key, w, turns, parse, 0) == Failed(503);
  }

  predicate Rejected401(client: Client, key: Key, w: World, t: Turn) {
    && client.Timely?
    && !BlockedAt(w.events + t.before, t.at)
    && (NeedsToken(client, key, w.acts, t) ==> t.auth.Granted?)
    && t.reply.Refused? && t.reply.code == 401
  }

  /** A 401 from TimelyGPT evicts the key's token, and ends the loop: only a later request authenticates again. */
  lemma {:induction false} EvictionEndsTheLoop<J>(key: Key, w: World, turns: seq<Turn>, retries: int,
                                                  parse: string -> Extracted<J>,
                                                  run: Run<J>, i: nat, now: TokenCaches.Time)
    requires GoodRun(Timely, key, w, turns, retries, parse, run) && i < run.attempts
    requires Rejected401(Timely, key, WorldAfter(Timely, key, w, turns, i), turns[i])
    ensures i == run.attempts - 1 && run.result == Failed(401) && run.slept == Pow2(i) - 1
    ensures Serving(WorldAfter(Timely, key, w, turns, run.attempts).acts, key, now) == None
  {
    assert ResultAt(Timely, key, w, turns, parse, i) == Failed(401);
    var after := WorldAfter(Timely, key, w, turns, i + 1).acts;
    assert after[|after| - 1] == Evict(key);
  }

  /** When turn i may begin: once the one before it is over. */
  function Opening(turns: seq<Turn>, from: CircuitBreaker.Time, i: nat): CircuitBreaker.Time
    requires i <= |turns|
  {
    if i == 0 then from else turns[i - 1].done
  }

  /** Each of the first n turns starts after the one before it was over. */
  predicate Timed(turns: seq<Turn>, from: CircuitBreaker.Time, n: nat)
    requires n <= |turns|
  {
    n == 0 || (Timed(turns, from, n - 1) && WellTimed(turns[n - 1], Opening(turns, from, n - 1)))
  }

  predicate Schedule(turns: seq<Turn>, from: CircuitBreaker.Time) {
    Timed(turns, from, |turns|)
  }

  function End(turns: seq<Turn>, from: CircuitBreaker.Time): CircuitBreaker.Time {
    Opening(turns, from, |turns|)
  }

  lemma {:induction false} TimedTurn(turns: seq<Turn>, from: CircuitBreaker.Time, n: nat, i: nat)
    requires i <= n <= |turns| && Timed(turns, from, n)
    ensures Opening(turns, from, i) <= Opening(turns, from, n)
    ensures i < n ==> WellTimed(turns[i], Opening(turns, from, i))
  {
    if i < n {
      TimedTurn(turns, from, n - 1, i);
    }
  }

  // ------------------------------------------------------------ three stages

  /** validate_notes returns, raises a ValidationError, or lets another exception escape. */
  datatype NotesVerdict = Accepted | Invalid | Broken

  datatype Product<J> =
    | NotesFailed(notes: Run<J>)
    | NotesRejected(notes: Run<J>)
    | NotesCrashed(notes: Run<J>)
    | McqFailed(notes: Run<J>, mcq: Run<J>)
    | FillFailed(notes: Run<J>, mcq: Run<J>, fill: Run<J>)
    | Produced(notes: Run<J>, mcq: Run<J>, fill: Run<J>)

  function Attempts<J>(p: Product<J>): nat {
    match p
    case NotesFailed(notes) => notes.attempts
    case NotesRejected(notes) => notes.attempts
    case NotesCrashed(notes) => notes.attempts
    case McqFailed(notes, mcq) => notes.attempts + mcq.attempts
    case FillFailed(notes, mcq, fill) => notes.attempts + mcq.attempts + fill.attempts
    case Produced(notes, mcq, fill) => notes.attempts + mcq.attempts + fill.attempts
  }

  function Slept<J>(p: Product<J>): nat {
    match p
    case NotesFailed(notes) => notes.slept
    case NotesRejected(notes) => notes.slept
    case NotesCrashed(notes) => notes.slept
    case McqFailed(notes, mcq) => notes.slept + mcq.slept
    case FillFailed(notes, mcq, fill) => notes.slept + mcq.slept + fill.slept
    case Produced(notes, mcq, fill) => notes.slept + mcq.slept + fill.slept
  }

  /** The turns of the three stages, taken one after the other. */
  datatype Plan = Plan(notes: seq<Turn>, mcq: seq<Turn>, fill: seq<Turn>)

  function AfterRun<J>(client: Client, key: Key, w: World, turns: seq<Turn>, run: Run<J>): World {
    WorldAfter(client, key, w, turns, if run.attempts <= |turns| then run.attempts else |turns|)
  }

  ghost predicate Stage<J>(client: Client, key: Key, w: World, turns: seq<Turn>, retries: nat,
                           parse: string -> Extracted<J>, run: Run<J>, ok: bool) {
    GoodRun(client, key, w, turns, retries, parse, run) && run.result.Parsed? == ok
  }

  /** Each stage is a good run from where the one before left the world, and only the last may fail. */
  ghost predicate GoodStages<J>(client: Client, key: Key, w: World, plan: Plan, retries: nat,
                                parse: string -> Extracted<J>,
                                checkNotes: Extracted<J> -> NotesVerdict, p: Product<J>) {
    && Stage(client, key, w, plan.notes, retries, parse, p.notes, !p.NotesFailed?)
    && (!p.NotesFailed? ==>
          checkNotes(p.notes.result.value)
          == if p.NotesRejected? then Invalid else if p.NotesCrashed? then Broken else Accepted)
    && (p.McqFailed? || p.FillFailed? || p.Produced? ==>
          var second := AfterRun(client, key, w, plan.notes, p.notes);
          && Stage(client, key, second, plan.mcq, retries, parse, p.mcq, !p.McqFailed?)
          && (p.FillFailed? || p.Produced? ==>
                var third := AfterRun(client, key, second, plan.mcq, p.mcq);
                Stage(client, key, third, plan.fill, retries, parse, p.fill, p.Produced?)))
  }

  /** A whole generation makes at most 3(retries + 1) requests and sleeps at most 3(2^retries - 1) seconds. */
  lemma {:induction false} PipelineBounds<J>(client: Client, key: Key, w: World, plan: Plan, retries: nat,
                                             parse: string -> Extracted<J>,
                                             checkNotes: Extracted<J> -> NotesVerdict, p: Product<J>)
    requires GoodStages(client, key, w, plan, retries, parse, checkNotes, p)
    ensures 1 <= Attempts(p) <= 3 * (retries + 1)
    ensures Slept(p) <= 3 * (Pow2(retries) - 1)
  {
    RetryBounds(client, key, w, plan.notes, retries, parse, p.notes);
    if p.McqFailed? || p.FillFailed? || p.Produced? {
      var second := AfterRun(client, key, w, plan.notes, p.notes);
      RetryBounds(client, key, second, plan.mcq, retries, parse, p.mcq);
      if !p.McqFailed? {
        RetryBounds(client, key, AfterRun(client, key, second, plan.mcq, p.mcq), plan.fill, retries, parse, p.fill);
      }
    }
  }

  /** One worker's client module: its breaker and its token cache. */
  class Service {
    const client: Client
    const breaker: Breaker
    const tokens: TokenCache

    ghost predicate Valid()
      reads this, breaker, tokens
    {
      breaker.Valid() && tokens.Valid()
    }

    ghost function Past(): World
      reads this, breaker, tokens
    {
      World(breaker.history, tokens.history)
    }

    constructor (client: Client, ghost start: CircuitBreaker.Time)
      ensures Valid() && Past() == World([], []) && this.client == client && breaker.clock == start
      ensures fresh(breaker) && fresh(tokens)
    {
      this.client := client;
      breaker := new Breaker(start);
      tokens := new TokenCache();
    }

    /** _get_access_token */
    method GetAccessToken(key: Key, t: Turn) returns (failure: Option<Outcome>)
      requires Valid()
      modifies tokens
      ensures Valid()
      ensures var needs := Serving(old(tokens.history), key, t.looked).None?;
              && failure == (if needs && !t.auth.Granted? then Some(AuthFailure(t.auth)) else None)
              && tokens.history == old(tokens.history)
                                   + (if needs && t.auth.Granted? then [Grant(key, t.auth.token, t.granted)] else [])
    {
      var cached := tokens.Lookup(key, t.looked);
      if cached.Some? {
        return None;
      }
      match t.auth {
        case AuthTimedOut => failure := Some(Raised(504));
        case AuthUnreachable => failure := Some(Raised(502));
        case AuthCrashed => failure := Some(Escaped);
        case AuthRefused(code) => failure := Some(Raised(if code == 401 then 401 else 502));
        case Tokenless => failure := Some(Raised(502));
        case Granted(token) =>
          tokens.Store(key, token, t.granted);
          failure := None;
      }
    }

    /** The part of a call after admission and authentication. */
    method Complete(key: Key, t: Turn) returns (outcome: Outcome)
      requires Valid() && breaker.clock <= t.at
      requires Between(t.during, t.at, t.done)
      modifies breaker, tokens
      ensures Valid() && breaker.clock <= t.done
      ensures (Past(), outcome) == Completed(client, key, old(Past()), t)
    {
      var _ := breaker.Replay(t.during);
      assert breaker.history + [] == breaker.history && tokens.history + [] == tokens.history;
      match t.reply {
        case Answered(text) =>
          breaker.RecordSuccess(t.done);
          outcome := Text(text);
        case Unusable =>
          breaker.RecordSuccess(t.done);
          outcome := if client.Timely? then Raised(502) else Escaped;
        case Undecodable =>
          if client.Timely? {
            breaker.RecordSuccess(t.done);
          }
          outcome := Escaped;
        case TimedOut =>
          breaker.RecordFailure(t.done);
          outcome := Raised(504);
        case Unreachable =>
          breaker.RecordFailure(t.done);
          outcome := Raised(502);
        case Crashed =>
          outcome := Escaped;
        case Refused(code, credit) =>
          outcome := Refuse(key, code, credit, t.done);
      }
    }

    /** The statuses that are no success. */
    method Refuse(key: Key, code: nat, credit: bool, at: CircuitBreaker.Time) returns (outcome: Outcome)
      requires Valid() && breaker.clock <= at
      modifies breaker, tokens
      ensures Valid() && breaker.clock <= at
      ensures outcome == Sorted(client, Refused(code, credit)).1
      ensures breaker.history == old(breaker.history) + Marked(Sorted(client, Refused(code, credit)).0, at)
      ensures tokens.history == old(tokens.history) + if client.Timely? && code == 401 then [Evict(key)] else []
    {
      if code == 401 {
        if client.Timely? {
          tokens.Pop(key);
        }
        outcome := Raised(401);
      } else if code == 429 {
        outcome := Raised(429);
      } else if Billing(client, code, credit) {
        outcome := Raised(503);
      } else {
        breaker.RecordFailure(at);
        outcome := Raised(502);
      }
    }

    /** _call_claude, _call_gpt, _call_timely */
    method Call(key: Key, t: Turn, ghost from: CircuitBreaker.Time) returns (outcome: Outcome)
      requires Valid() && breaker.clock <= from && WellTimed(t, from)
      modifies breaker, tokens
      ensures Valid() && breaker.clock <= t.done
      ensures (Past(), outcome) == Called(client, key, old(Past()), t)
    {
      var _ := breaker.Replay(t.before);
      var open := breaker.IsOpen(t.at);
      if open {
        return Raised(503);
      }
      if client.Timely? {
        var failure := GetAccessToken(key, t);
        assert old(tokens.history) + [] == old(tokens.history);
        if failure.Some? {
          return failure.value;
        }
      }
      outcome := Complete(key, t);
    }

    /** The call of attempt i in a run that began in world w. */
    method Attempt(key: Key, turns: seq<Turn>, i: nat, ghost from: CircuitBreaker.Time, ghost w: World)
      returns (outcome: Outcome)
      requires Valid() && i < |turns| && Schedule(turns, from) && breaker.clock <= Opening(turns, from, i)
      requires Past() == WorldAfter(client, key, w, turns, i)
      modifies breaker, tokens
      ensures Valid() && breaker.clock <= Opening(turns, from, i + 1) <= End(turns, from)
      ensures Past() == WorldAfter(client, key, w, turns, i + 1)
      ensures outcome == OutcomeAt(client, key, w, turns, i)
    {
      TimedTurn(turns, from, |turns|, i);
      TimedTurn(turns, from, |turns|, i + 1);
      outcome := Call(key, turns[i], Opening(turns, from, i));
    }

    /** generate_with_retry */
    method GenerateWithRetry<J>(key: Key, turns: seq<Turn>, retries: int, parse: string -> Extracted<J>,
                                ghost from: CircuitBreaker.Time)
      returns (run: Run<J>)
      requires Valid() && breaker.clock <= from && Schedule(turns, from) && retries < |turns|
      modifies breaker, tokens
      ensures Valid() && breaker.clock <= End(turns, from)
      ensures GoodRun(client, key, old(Past()), turns, retries, parse, run)
      ensures Past() == WorldAfter(client, key, old(Past()), turns, run.attempts)
    {
      var slept: nat := 0;
      var attempt: nat := 0;
      ghost var w := Past();
      TimedTurn(turns, from, |turns|, 0);
      while attempt < retries + 1
        invariant Going(client, key, w, turns, retries, parse, attempt, slept)
        invariant Valid() && breaker.clock <= Opening(turns, from, attempt)
        invariant breaker.clock <= End(turns, from)
        invariant Past() == WorldAfter(client, key, w, turns, attempt)
      {
        GoesOn(client, key, w, turns, retries, parse, attempt, slept);
        var outcome := Attempt(key, turns, attempt, from, w);
        var result := Judged(outcome, parse);
        assert result == ResultAt(client, key, w, turns, parse, attempt);
        if !Retried(result) {
          return Run(attempt + 1, slept, result);
        }
        if attempt < retries {
          slept := slept + Pow2(attempt);
        }
        attempt := attempt + 1;
      }
      RunsOut(client, key, w, turns, retries, parse, attempt, slept);
      run := Run(attempt, slept, Failed(500));
    }

    /** The notes, multiple-choice and fill-in stages of a generation; the first stage that fails ends it. */
    method Stages<J>(key: Key, plan: Plan, retries: nat, parse: string -> Extracted<J>,
                     checkNotes: Extracted<J> -> NotesVerdict, ghost from: CircuitBreaker.Time)
      returns (p: Product<J>)
      requires Valid() && breaker.clock <= from
      requires retries < |plan.notes| && retries < |plan.mcq| && retries < |plan.fill|
      requires Schedule(plan.notes, from) && Schedule(plan.mcq, End(plan.notes, from))
      requires Schedule(plan.fill, End(plan.mcq, End(plan.notes, from)))
      modifies breaker, tokens
      ensures Valid()
      ensures GoodStages(client, key, old(Past()), plan, retries, parse, checkNotes, p)
    {
      var notes := GenerateWithRetry(key, plan.notes, retries, parse, from);
      if !notes.result.Parsed? {
        return NotesFailed(notes);
      }
      match checkNotes(notes.result.value) {
        case Accepted =>
        case Invalid => return NotesRejected(notes);
        case Broken => return NotesCrashed(notes);
      }
      ghost var second := End(plan.notes, from);
      var mcq := GenerateWithRetry(key, plan.mcq, retries, parse, second);
      if !mcq.result.Parsed? {
        return McqFailed(notes, mcq);
      }
      var fill := GenerateWithRetry(key, plan.fill, retries, parse, End(plan.mcq, second));
      p := if fill.result.Parsed? then Produced(notes, mcq, fill) else FillFailed(notes, mcq, fill);
    }
  }
}
