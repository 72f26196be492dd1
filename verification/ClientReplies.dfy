/** What each kind of reply does to the breaker, the token and the retry loop. */
module ClientReplies {
  import opened Wrappers
  import PyText
  import opened CircuitBreaker
  import opened TokenCaches
  import opened ExtractJson
  import opened Clients
  import opened ClientSpacing

  /** The request reaches the provider: the breaker is closed, and a token is cached or granted. */
  predicate Reaches(client: Client, key: Key, w: World, t: Turn) {
    && !BlockedAt(w.events + t.before, t.at)
    && (client.Timely? && Serving(w.acts, key, t.looked).None? ==> t.auth.Granted?)
  }

  /** What other tasks told the breaker before and during the turn, and nobody else. */
  function Others(w: World, t: Turn): seq<Event> {
    w.events + t.before + t.during
  }

  function After(client: Client, key: Key, w: World, t: Turn): seq<Event> {
    Called(client, key, w, t).0.events
  }

  /** The breaker cannot tell that the turn took place. */
  predicate Uncounted(client: Client, key: Key, w: World, t: Turn) {
    SameAnswers(After(client, key, w, t), Others(w, t))
  }

  /** One failure more, as of now. */
  predicate Counted(client: Client, key: Key, w: World, t: Turn) {
    && Streak(After(client, key, w, t)) == Streak(Others(w, t)) + 1
    && LastFailure(After(client, key, w, t)) == Some(t.done)
  }

  /** The streak of failures is over. */
  predicate Cleared(client: Client, key: Key, w: World, t: Turn) {
    Streak(After(client, key, w, t)) == 0
  }

  // --------------------------------------------------------------- the breaker

  lemma {:induction false} QueryInvisible(h: seq<Event>, at: CircuitBreaker.Time, later: seq<Event>)
    ensures SameAnswers(h + [Query(at)] + later, h + later)
  {
    if later == [] {
      assert h + [Query(at)] + later == h + [Query(at)] && h + later == h;
      Append(h, Query(at));
    } else {
      var n := |later| - 1;
      QueryInvisible(h, at, later[..n]);
      Append(h + [Query(at)] + later[..n], later[n]);
      Append(h + later[..n], later[n]);
      assert h + [Query(at)] + later == (h + [Query(at)] + later[..n]) + [later[n]];
      assert h + later == (h + later[..n]) + [later[n]];
    }
  }

  lemma {:induction false} ReachedEvents(client: Client, key: Key, w: World, t: Turn)
    requires Reaches(client, key, w, t)
    ensures After(client, key, w, t)
            == w.events + t.before + [Query(t.at)] + t.during + Marked(Sorted(client, t.reply).0, t.done)
    ensures Called(client, key, w, t).1 == Sorted(client, t.reply).1
  {
  }

  lemma {:induction false} MarkShows(client: Client, key: Key, w: World, t: Turn)
    requires Reaches(client, key, w, t)
    ensures match Sorted(client, t.reply).0
            case Unmarked => Uncounted(client, key, w, t)
            case Lost => Counted(client, key, w, t)
            case Won => Cleared(client, key, w, t)
  {
    ReachedEvents(client, key, w, t);
    var h := w.events + t.before;
    var seen := h + [Query(t.at)] + t.during;
    QueryInvisible(h, t.at, t.during);
    match Sorted(client, t.reply).0
    case Unmarked => assert seen + [] == seen;
    case Lost => Append(seen, Failure(t.done));
    case Won => Append(seen, Success(t.done));
  }

  // ------------------------------------------------------------------ the loop

  /** The attempt is the last one, and its result that of the run. */
  ghost predicate EndsWith<J>(run: Run<J>, i: nat, result: Clients.Result<J>) {
    run.attempts == i + 1 && run.result == result && run.slept == Pow2(i) - 1
  }

  /** Another attempt is made if one is left; otherwise the run ends with 500. */
  ghost predicate GoesOnAfter<J>(run: Run<J>, i: nat, retries: int) {
    if i < retries then run.attempts > i + 1 else EndsWith(run, i, Failed(500))
  }

  lemma {:induction false} FinalAttempt<J>(client: Client, key: Key, w: World, turns: seq<Turn>, retries: int,
                                           parse: string -> Extracted<J>, run: Run<J>, i: nat)
    requires GoodRun(client, key, w, turns, retries, parse, run) && i < run.attempts
    requires !Retried(ResultAt(client, key, w, turns, parse, i))
    ensures EndsWith(run, i, ResultAt(client, key, w, turns, parse, i))
  {
  }

  lemma {:induction false} RetriedAttempt<J>(client: Client, key: Key, w: World, turns: seq<Turn>, retries: int,
                                             parse: string -> Extracted<J>, run: Run<J>, i: nat)
    requires GoodRun(client, key, w, turns, retries, parse, run) && i < run.attempts
    requires Retried(ResultAt(client, key, w, turns, parse, i))
    ensures GoesOnAfter(run, i, retries)
  {
  }

  // ---------------------------------------------------------- the provider's replies

  /** 429 from any provider: raised at once, and no failure for the breaker. */
  lemma {:induction false} RateLimitEndsTheLoop<J>(client: Client, key: Key, w: World, turns: seq<Turn>, retries: int,
                                                   parse: string -> Extracted<J>, run: Run<J>, i: nat)
    requires GoodRun(client, key, w, turns, retries, parse, run) && i < run.attempts
    requires Reaches(client, key, WorldAfter(client, key, w, turns, i), turns[i])
    requires turns[i].reply.Refused? && turns[i].reply.code == 429
    ensures EndsWith(run, i, Failed(429)) && Uncounted(client, key, WorldAfter(client, key, w, turns, i), turns[i])
  {
    ReachedEvents(client, key, WorldAfter(client, key, w, turns, i), turns[i]);
    MarkShows(client, key, WorldAfter(client, key, w, turns, i), turns[i]);
    FinalAttempt(client, key, w, turns, retries, parse, run, i);
  }

  /** 401 likewise. */
  lemma {:induction false} BadKeyEndsTheLoop<J>(client: Client, key: Key, w: World, turns: seq<Turn>, retries: int,
                                                parse: string -> Extracted<J>, run: Run<J>, i: nat)
    requires GoodRun(client, key, w, turns, retries, parse, run) && i < run.attempts
    requires Reaches(client, key, WorldAfter(client, key, w, turns, i), turns[i])
    requires turns[i].reply.Refused? && turns[i].reply.code == 401
    ensures EndsWith(run, i, Failed(401)) && Uncounted(client, key, WorldAfter(client, key, w, turns, i), turns[i])
  {
    ReachedEvents(client, key, WorldAfter(client, key, w, turns, i), turns[i]);
    MarkShows(client, key, WorldAfter(client, key, w, turns, i), turns[i]);
    FinalAttempt(client, key, w, turns, retries, parse, run, i);
  }

  /** How each provider says that the account is out of credit. */
  predicate OutOfCredit(client: Client, reply: Reply) {
    reply.Refused? &&
    match client
    case Anthropic => reply.code == 400 && reply.credit
    case OpenAI => reply.code == 402 || reply.code == 403
    case Timely => reply.code == 402 || reply.code == 403
  }

  /** A refusal over billing is raised at once as 503, and is no failure for the breaker. */
  lemma {:induction false} BillingEndsTheLoop<J>(client: Client, key: Key, w: World, turns: seq<Turn>, retries: int,
                                                 parse: string -> Extracted<J>, run: Run<J>, i: nat)
    requires GoodRun(client, key, w, turns, retries, parse, run) && i < run.attempts
    requires Reaches(client, key, WorldAfter(client, key, w, turns, i), turns[i])
    requires OutOfCredit(client, turns[i].reply)
    ensures EndsWith(run, i, Failed(503)) && Uncounted(client, key, WorldAfter(client, key, w, turns, i), turns[i])
  {
    ReachedEvents(client, key, WorldAfter(client, key, w, turns, i), turns[i]);
    MarkShows(client, key, WorldAfter(client, key, w, turns, i), turns[i]);
    FinalAttempt(client, key, w, turns, retries, parse, run, i);
  }

  /** No answer, no connection, or a status that is neither the caller's nor the account's fault. */
  predicate ProviderFails(client: Client, reply: Reply) {
    match reply
    case TimedOut => true
    case Unreachable => true
    case Refused(code, _) => code != 401 && code != 429 && !OutOfCredit(client, reply)
    case _ => false
  }

  /** A failure of the provider counts against the breaker, and is retried. */
  lemma {:induction false} ProviderFailureIsRetried<J>(client: Client, key: Key, w: World, turns: seq<Turn>,
                                                       retries: int,
                                                       parse: string -> Extracted<J>, run: Run<J>, i: nat)
    requires GoodRun(client, key, w, turns, retries, parse, run) && i < run.attempts
    requires Reaches(client, key, WorldAfter(client, key, w, turns, i), turns[i])
    requires ProviderFails(client, turns[i].reply)
    ensures Counted(client, key, WorldAfter(client, key, w, turns, i), turns[i]) && GoesOnAfter(run, i, retries)
    ensures OutcomeAt(client, key, w, turns, i) == Raised(if turns[i].reply.TimedOut? then 504 else 502)
  {
    ReachedEvents(client, key, WorldAfter(client, key, w, turns, i), turns[i]);
    MarkShows(client, key, WorldAfter(client, key, w, turns, i), turns[i]);
    RetriedAttempt(client, key, w, turns, retries, parse, run, i);
  }

  /** An answer that the parser accepts ends the loop with just what the parser made of it. */
  lemma {:induction false} AnswerEndsTheLoop<J>(client: Client, key: Key, w: World, turns: seq<Turn>, retries: int,
                                                parse: string -> Extracted<J>, run: Run<J>, i: nat)
    requires GoodRun(client, key, w, turns, retries, parse, run) && i < run.attempts
    requires Reaches(client, key, WorldAfter(client, key, w, turns, i), turns[i])
    requires turns[i].reply.Answered? && !parse(turns[i].reply.text).GenerationError?
    ensures EndsWith(run, i, Parsed(parse(turns[i].reply.text)))
            && Cleared(client, key, WorldAfter(client, key, w, turns, i), turns[i])
  {
    ReachedEvents(client, key, WorldAfter(client, key, w, turns, i), turns[i]);
    MarkShows(client, key, WorldAfter(client, key, w, turns, i), turns[i]);
    FinalAttempt(client, key, w, turns, retries, parse, run, i);
  }

  /** One that the parser cannot read is retried, though it clears the breaker. */
  lemma {:induction false} UnreadableAnswerIsRetried<J>(client: Client, key: Key, w: World, turns: seq<Turn>,
                                                        retries: int,
                                                        parse: string -> Extracted<J>, run: Run<J>, i: nat)
    requires GoodRun(client, key, w, turns, retries, parse, run) && i < run.attempts
    requires Reaches(client, key, WorldAfter(client, key, w, turns, i), turns[i])
    requires turns[i].reply.Answered? && parse(turns[i].reply.text).GenerationError?
    ensures Cleared(client, key, WorldAfter(client, key, w, turns, i), turns[i]) && GoesOnAfter(run, i, retries)
  {
    ReachedEvents(client, key, WorldAfter(client, key, w, turns, i), turns[i]);
    MarkShows(client, key, WorldAfter(client, key, w, turns, i), turns[i]);
    RetriedAttempt(client, key, w, turns, retries, parse, run, i);
  }

  /**
   * A success status without a readable text clears the breaker; TimelyGPT is asked again, with the SDKs the
   * exception escapes.
   */
  lemma {:induction false} UnusableAnswer<J>(client: Client, key: Key, w: World, turns: seq<Turn>, retries: int,
                                             parse: string -> Extracted<J>, run: Run<J>, i: nat)
    requires GoodRun(client, key, w, turns, retries, parse, run) && i < run.attempts
    requires Reaches(client, key, WorldAfter(client, key, w, turns, i), turns[i])
    requires turns[i].reply.Unusable?
    ensures Cleared(client, key, WorldAfter(client, key, w, turns, i), turns[i])
    ensures if client.Timely? then GoesOnAfter(run, i, retries) else EndsWith(run, i, Crash)
    ensures client.Timely? ==> OutcomeAt(client, key, w, turns, i) == Raised(502)
  {
    ReachedEvents(client, key, WorldAfter(client, key, w, turns, i), turns[i]);
    MarkShows(client, key, WorldAfter(client, key, w, turns, i), turns[i]);
    if client.Timely? {
      RetriedAttempt(client, key, w, turns, retries, parse, run, i);
    } else {
      FinalAttempt(client, key, w, turns, retries, parse, run, i);
    }
  }

  /** An exception that no handler names ends the loop. */
  lemma {:induction false} EscapeEndsTheLoop<J>(client: Client, key: Key, w: World, turns: seq<Turn>, retries: int,
                                                parse: string -> Extracted<J>, run: Run<J>, i: nat)
    requires GoodRun(client, key, w, turns, retries, parse, run) && i < run.attempts
    requires Reaches(client, key, WorldAfter(client, key, w, turns, i), turns[i])
    requires turns[i].reply.Crashed? || turns[i].reply.Undecodable?
    ensures EndsWith(run, i, Crash)
    ensures turns[i].reply.Crashed? || !client.Timely?
            ==> Uncounted(client, key, WorldAfter(client, key, w, turns, i), turns[i])
    ensures turns[i].reply.Undecodable? && client.Timely?
            ==> Cleared(client, key, WorldAfter(client, key, w, turns, i), turns[i])
  {
    ReachedEvents(client, key, WorldAfter(client, key, w, turns, i), turns[i]);
    MarkShows(client, key, WorldAfter(client, key, w, turns, i), turns[i]);
    FinalAttempt(client, key, w, turns, retries, parse, run, i);
  }

  // ------------------------------------------------------ turned away before the provider

  /** An open breaker ends the loop with 503 at whichever attempt it is found open. */
  lemma {:induction false} BlockedEndsTheLoop<J>(client: Client, key: Key, w: World, turns: seq<Turn>, retries: int,
                                                 parse: string -> Extracted<J>, run: Run<J>, i: nat)
    requires GoodRun(client, key, w, turns, retries, parse, run) && i < run.attempts
    requires var u := WorldAfter(client, key, w, turns, i); BlockedAt(u.events + turns[i].before, turns[i].at)
    ensures EndsWith(run, i, Failed(503))
    ensures var u := WorldAfter(client, key, w, turns, i);
            After(client, key, u, turns[i]) == u.events + turns[i].before + [Query(turns[i].at)]
  {
    FinalAttempt(client, key, w, turns, retries, parse, run, i);
  }

  /** TimelyGPT is to be asked for a token, and gives none. */
  predicate NoToken(key: Key, w: World, t: Turn) {
    !BlockedAt(w.events + t.before, t.at) && Serving(w.acts, key, t.looked).None? && !t.auth.Granted?
  }

  /** The breaker is only asked, and nothing is granted or evicted. */
  predicate LeavesAll(key: Key, w: World, t: Turn) {
    Called(Timely, key, w, t).0 == World(w.events + t.before + [Query(t.at)], w.acts)
  }

  /** A key that TimelyGPT refuses ends the loop with 401; any other trouble with the token is retried, uncounted. */
  lemma {:induction false} TokenTrouble<J>(key: Key, w: World, turns: seq<Turn>, retries: int,
                                           parse: string -> Extracted<J>, run: Run<J>, i: nat)
    requires GoodRun(Timely, key, w, turns, retries, parse, run) && i < run.attempts
    requires NoToken(key, WorldAfter(Timely, key, w, turns, i), turns[i])
    ensures LeavesAll(key, WorldAfter(Timely, key, w, turns, i), turns[i])
    ensures match turns[i].auth
            case AuthRefused(code) =>
              if code == 401 then EndsWith(run, i, Failed(401)) else GoesOnAfter(run, i, retries)
            case AuthCrashed => EndsWith(run, i, Crash)
            case _ => GoesOnAfter(run, i, retries)
    ensures GoesOnAfter(run, i, retries) ==>
              OutcomeAt(Timely, key, w, turns, i) == Raised(if turns[i].auth.AuthTimedOut? then 504 else 502)
  {
    if Retried(ResultAt(Timely, key, w, turns, parse, i)) {
      RetriedAttempt(Timely, key, w, turns, retries, parse, run, i);
    } else {
      FinalAttempt(Timely, key, w, turns, retries, parse, run, i);
    }
  }

  // ------------------------------------------------------------- with the real parser

  /** A complete fenced reply ends the loop on that very attempt, with what json.loads makes of its payload. */
  lemma {:induction false} FencedReplyEndsTheLoop<J>(client: Client, key: Key, w: World, turns: seq<Turn>, retries: int,
                                                     loads: string -> Option<J>, run: Run<J>, i: nat,
                                                     before: string, tag: string, payload: string, indent: string,
                                                     after: string)
    requires GoodRun(client, key, w, turns, retries, Reader(loads), run) && i < run.attempts
    requires Reaches(client, key, WorldAfter(client, key, w, turns, i), turns[i])
    requires PyText.AllSpace(before) && PyText.AllSpace(after) && PyText.Lacks(tag, '\n') && loads(payload).Some?
    requires PyText.AllSpace(indent) && PyText.Lacks(indent, '\n')
    requires turns[i].reply == Answered(before + (FENCE + tag + "\n" + (payload + "\n" + (indent + FENCE))) + after)
    ensures EndsWith(run, i, Parsed(Loaded(loads(payload).value)))
  {
    FencedReplyLoads(before, tag, payload, indent, after, loads);
    AnswerEndsTheLoop(client, key, w, turns, retries, Reader(loads), run, i);
  }

  /** So does a complete reply without a fence. */
  lemma {:induction false} PlainReplyEndsTheLoop<J>(client: Client, key: Key, w: World, turns: seq<Turn>, retries: int,
                                                    loads: string -> Option<J>, run: Run<J>, i: nat,
                                                    before: string, text: string, after: string)
    requires GoodRun(client, key, w, turns, retries, Reader(loads), run) && i < run.attempts
    requires Reaches(client, key, WorldAfter(client, key, w, turns, i), turns[i])
    requires PyText.AllSpace(before) && PyText.AllSpace(after) && PyText.Stripped(text) && !(FENCE <= text)
    requires loads(text).Some? && turns[i].reply == Answered(before + text + after)
    ensures EndsWith(run, i, Parsed(Loaded(loads(text).value)))
  {
    PlainReplyLoads(before, text, after, loads);
    AnswerEndsTheLoop(client, key, w, turns, retries, Reader(loads), run, i);
  }
}
