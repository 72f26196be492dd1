/** POST /user/sync: three passes of insert-or-ignore statements over the user's tables. */
module BulkSync {
  import opened Wrappers
  import opened StudyTypes
  import opened UserRows

  datatype ReviewKey = ReviewKey(user: UserId, session: SessionId, question: string)

  /** next is the id the database gives the next row it really inserts. */
  datatype Tables = Tables(
    subjects: map<(UserId, string), string>,
    rows: Rows,
    next: SessionId,
    reviews: map<ReviewKey, nat>)

  datatype SessionIn = SessionIn(hash: Option<Hash>, status: RowStatus, meta: Meta)

  datatype ReviewIn = ReviewIn(session: SessionId, question: string, schedule: nat)

  datatype Stmt =
    | PutSubject(name: string, color: string)
    | CheckSubjects(ids: set<nat>)
    | PutSession(session: SessionIn)
    | PutReview(review: ReviewIn)

  /** What the payload may refer to: the user's own subjects, and existing sessions (foreign key). */
  datatype Env = Env(owned: set<nat>, sessions: set<SessionId>)

  predicate Raises(stmt: Stmt, env: Env) {
    match stmt
    case CheckSubjects(ids) => !(ids <= env.owned)
    case PutReview(review) => review.session !in env.sessions
    case _ => false
  }

  function Put<K, V>(m: map<K, V>, key: K, value: V): map<K, V> {
    if key in m then m else m[key := value]
  }

  function RowOf(user: UserId, s: SessionIn): Row {
    Row(user, s.hash, s.status, s.meta)
  }

  /** One statement: ON CONFLICT DO NOTHING on the table's natural key. */
  function Do(t: Tables, user: UserId, stmt: Stmt): Tables {
    match stmt
    case PutSubject(name, color) => t.(subjects := Put(t.subjects, (user, name), color))
    case CheckSubjects(_) => t
    case PutSession(s) =>
      if KeyFree(t.rows, user, s.hash) then t.(rows := t.rows[t.next := RowOf(user, s)], next := t.next + 1) else t
    case PutReview(r) => t.(reviews := Put(t.reviews, ReviewKey(user, r.session, r.question), r.schedule))
  }

  /** Statements run in order and autocommit; the first one that raises ends the request. */
  function RunSync(t: Tables, user: UserId, env: Env, stmts: seq<Stmt>): Tables
    decreases |stmts|
  {
    if stmts == [] || Raises(stmts[0], env) then t
    else RunSync(Do(t, user, stmts[0]), user, env, stmts[1..])
  }

  predicate RunsThrough(env: Env, stmts: seq<Stmt>) {
    forall i | 0 <= i < |stmts| :: !Raises(stmts[i], env)
  }

  /** How many statements run before one raises. */
  function Executed(env: Env, stmts: seq<Stmt>): (n: nat)
    ensures n <= |stmts| && RunsThrough(env, stmts[..n])
    ensures n < |stmts| ==> Raises(stmts[n], env)
  {
    if stmts == [] || Raises(stmts[0], env) then 0 else 1 + Executed(env, stmts[1..])
  }

  // ------------------------------------------------------ the natural keys

  /** The statement's key is in its table already. */
  predicate Taken(t: Tables, user: UserId, stmt: Stmt) {
    match stmt
    case PutSubject(name, _) => (user, name) in t.subjects
    case CheckSubjects(_) => true
    case PutSession(s) => !KeyFree(t.rows, user, s.hash)
    case PutReview(r) => ReviewKey(user, r.session, r.question) in t.reviews
  }

  /** A session without a hash: its NULL key conflicts with nothing. */
  predicate Keyless(stmt: Stmt) {
    stmt.PutSession? && stmt.session.hash.None?
  }

  predicate NextFresh(t: Tables) {
    forall id | id in t.rows :: id < t.next
  }

  /** Only grows, and never changes what is there. */
  predicate Extends(t: Tables, u: Tables) {
    && (forall k | k in t.subjects :: k in u.subjects && u.subjects[k] == t.subjects[k])
    && (forall k | k in t.rows :: k in u.rows && u.rows[k] == t.rows[k])
    && (forall k | k in t.reviews :: k in u.reviews && u.reviews[k] == t.reviews[k])
    && t.next <= u.next
  }

  lemma {:induction false} DoExtends(t: Tables, user: UserId, stmt: Stmt)
    requires NextFresh(t)
    ensures NextFresh(Do(t, user, stmt)) && Extends(t, Do(t, user, stmt))
    ensures Taken(t, user, stmt) ==> Do(t, user, stmt) == t
    ensures Taken(Do(t, user, stmt), user, stmt) || Keyless(stmt)
  {
    if stmt.PutSession? && KeyFree(t.rows, user, stmt.session.hash) && !Keyless(stmt) {
      var u := Do(t, user, stmt);
      assert SameKey(u.rows[t.next], user, stmt.session.hash);
    }
  }

  lemma {:induction false} TakenExtends(t: Tables, u: Tables, user: UserId, stmt: Stmt)
    requires Extends(t, u) && Taken(t, user, stmt)
    ensures Taken(u, user, stmt)
  {
    if stmt.PutSession? {
      var id :| id in t.rows && SameKey(t.rows[id], user, stmt.session.hash);
      assert SameKey(u.rows[id], user, stmt.session.hash);
    }
  }

  lemma {:induction false} ExtendsTrans(t: Tables, u: Tables, v: Tables)
    requires Extends(t, u) && Extends(u, v)
    ensures Extends(t, v)
  {
  }

  /** No run alters or removes an existing row of any table. */
  lemma {:induction false} SyncExtends(t: Tables, user: UserId, env: Env, stmts: seq<Stmt>)
    requires NextFresh(t)
    ensures NextFresh(RunSync(t, user, env, stmts)) && Extends(t, RunSync(t, user, env, stmts))
    decreases |stmts|
  {
    if stmts != [] && !Raises(stmts[0], env) {
      var u := Do(t, user, stmts[0]);
      DoExtends(t, user, stmts[0]);
      SyncExtends(u, user, env, stmts[1..]);
      ExtendsTrans(t, u, RunSync(t, user, env, stmts));
    }
  }

  predicate AllTaken(t: Tables, user: UserId, stmts: seq<Stmt>) {
    forall i | 0 <= i < |stmts| :: Taken(t, user, stmts[i])
  }

  lemma {:induction false} TakenRunsIdle(t: Tables, user: UserId, env: Env, stmts: seq<Stmt>)
    requires NextFresh(t) && AllTaken(t, user, stmts)
    ensures RunSync(t, user, env, stmts) == t
    decreases |stmts|
  {
    if stmts != [] && !Raises(stmts[0], env) {
      DoExtends(t, user, stmts[0]);
      TakenRunsIdle(t, user, env, stmts[1..]);
    }
  }

  lemma {:induction false} RunSyncSplit(t: Tables, user: UserId, env: Env, xs: seq<Stmt>, ys: seq<Stmt>)
    requires RunsThrough(env, xs)
    ensures RunSync(t, user, env, xs + ys) == RunSync(RunSync(t, user, env, xs), user, env, ys)
    decreases |xs|
  {
    if xs == [] {
      assert xs + ys == ys;
    } else {
      assert (xs + ys)[0] == xs[0] && (xs + ys)[1..] == xs[1..] + ys;
      assert !Raises(xs[0], env);
      RunSyncSplit(Do(t, user, xs[0]), user, env, xs[1..], ys);
    }
  }

  predicate Keyed(stmts: seq<Stmt>) {
    forall i | 0 <= i < |stmts| :: !Keyless(stmts[i])
  }

  lemma {:induction false} RunTakesKeyed(t: Tables, user: UserId, env: Env, stmts: seq<Stmt>, i: nat)
    requires NextFresh(t) && RunsThrough(env, stmts) && i < |stmts| && !Keyless(stmts[i])
    ensures Taken(RunSync(t, user, env, stmts), user, stmts[i])
    decreases |stmts|
  {
    var u := Do(t, user, stmts[0]);
    DoExtends(t, user, stmts[0]);
    SyncExtends(u, user, env, stmts[1..]);
    if i == 0 {
      TakenExtends(u, RunSync(u, user, env, stmts[1..]), user, stmts[0]);
    } else {
      RunTakesKeyed(u, user, env, stmts[1..], i - 1);
    }
  }

  /** After a run every statement it executed is taken, unless it put a row without a hash. */
  lemma {:induction false} RunTakes(t: Tables, user: UserId, env: Env, stmts: seq<Stmt>)
    requires NextFresh(t) && RunsThrough(env, stmts) && Keyed(stmts)
    ensures AllTaken(RunSync(t, user, env, stmts), user, stmts)
  {
    forall i | 0 <= i < |stmts| ensures Taken(RunSync(t, user, env, stmts), user, stmts[i]) {
      RunTakesKeyed(t, user, env, stmts, i);
    }
  }

  /** Two states in which the user's keyed statements find the same keys taken. */
  ghost predicate SameTaken(t: Tables, u: Tables, user: UserId) {
    forall stmt :: Keyless(stmt) || (Taken(t, user, stmt) <==> Taken(u, user, stmt))
  }

  lemma {:induction false} DoSameTaken(t: Tables, u: Tables, user: UserId, stmt: Stmt)
    requires NextFresh(t) && NextFresh(u) && SameTaken(t, u, user)
    ensures SameTaken(Do(t, user, stmt), Do(u, user, stmt), user)
    ensures Do(t, user, stmt).next - t.next == Do(u, user, stmt).next - u.next
  {
    var t', u' := Do(t, user, stmt), Do(u, user, stmt);
    assert Keyless(stmt) || (Taken(t, user, stmt) <==> Taken(u, user, stmt));
    assert Keyless(stmt) ==> KeyFree(t.rows, user, None) && KeyFree(u.rows, user, None);
    forall x | !Keyless(x) ensures Taken(t', user, x) <==> Taken(u', user, x) {
      TakenAfter(t, user, stmt, x);
      TakenAfter(u, user, stmt, x);
    }
  }

  predicate SameTarget(a: Stmt, b: Stmt) {
    match a
    case PutSubject(name, _) => b.PutSubject? && b.name == name
    case CheckSubjects(_) => false
    case PutSession(s) => b.PutSession? && b.session.hash == s.hash && s.hash.Some?
    case PutReview(r) => b.PutReview? && b.review.session == r.session && b.review.question == r.question
  }

  lemma {:induction false} TakenAfter(t: Tables, user: UserId, stmt: Stmt, x: Stmt)
    requires NextFresh(t)
    ensures Taken(Do(t, user, stmt), user, x) <==> Taken(t, user, x) || SameTarget(stmt, x)
  {
    DoExtends(t, user, stmt);
    var u := Do(t, user, stmt);
    if Taken(t, user, x) {
      TakenExtends(t, u, user, x);
    } else if u == t {
    } else {
      match stmt
      case PutSubject(name, _) =>
      case CheckSubjects(_) =>
      case PutReview(r) =>
      case PutSession(y) =>
        if x.PutSession? {
          KeyFreeAfter(t.rows, t.next, RowOf(user, y), user, x.session.hash);
        }
    }
  }

  lemma {:induction false} KeyFreeAfter(rows: Rows, id: SessionId, row: Row, user: UserId, hash: Option<Hash>)
    requires id !in rows
    ensures KeyFree(rows[id := row], user, hash) <==> KeyFree(rows, user, hash) && !SameKey(row, user, hash)
  {
    var after := rows[id := row];
    assert after[id] == row;
    forall x | x in rows ensures after[x] == rows[x] { }
  }

  lemma {:induction false} RunSameTaken(t: Tables, u: Tables, user: UserId, env: Env, stmts: seq<Stmt>)
    requires NextFresh(t) && NextFresh(u) && SameTaken(t, u, user)
    ensures RunSync(t, user, env, stmts).next - t.next == RunSync(u, user, env, stmts).next - u.next
    decreases |stmts|
  {
    if stmts != [] && !Raises(stmts[0], env) {
      DoSameTaken(t, u, user, stmts[0]);
      DoExtends(t, user, stmts[0]);
      DoExtends(u, user, stmts[0]);
      RunSameTaken(Do(t, user, stmts[0]), Do(u, user, stmts[0]), user, env, stmts[1..]);
    }
  }

  lemma {:induction false} RerunSameTaken(t: Tables, user: UserId, env: Env, stmts: seq<Stmt>)
    requires NextFresh(t) && RunsThrough(env, stmts)
    requires forall i | 0 <= i < |stmts| :: Keyless(stmts[i]) || Taken(t, user, stmts[i])
    ensures SameTaken(t, RunSync(t, user, env, stmts), user)
    decreases |stmts|
  {
    if stmts != [] {
      var u := Do(t, user, stmts[0]);
      DoExtends(t, user, stmts[0]);
      forall x ensures Taken(u, user, x) <==> Taken(t, user, x) || SameTarget(stmts[0], x) {
        TakenAfter(t, user, stmts[0], x);
      }
      forall i | 0 <= i < |stmts| - 1 ensures Keyless(stmts[1..][i]) || Taken(u, user, stmts[1..][i]) {
        assert stmts[1..][i] == stmts[i + 1];
      }
      RerunSameTaken(u, user, env, stmts[1..]);
      forall x | !Keyless(x) ensures Taken(t, user, x) <==> Taken(RunSync(u, user, env, stmts[1..]), user, x) {
        assert SameTarget(stmts[0], x) ==> Taken(t, user, x);
      }
    }
  }

  /**
   * Crash safety: a request cut off after k statements, followed by the full request, leaves the tables
   * exactly as one full request does, whether or not that request raises, if and only if the k statements
   * put no session without a hash.
   */
  lemma {:induction false} CrashThenFull(t: Tables, user: UserId, env: Env, stmts: seq<Stmt>, k: nat)
    requires NextFresh(t) && k <= Executed(env, stmts)
    ensures RunSync(RunSync(t, user, env, stmts[..k]), user, env, stmts) == RunSync(t, user, env, stmts)
            <==> Keyed(stmts[..k])
  {
    var done, rest := stmts[..k], stmts[k..];
    assert stmts == done + rest;
    assert forall i | 0 <= i < k :: stmts[..Executed(env, stmts)][i] == done[i];
    var u := RunSync(t, user, env, done);
    var w := RunSync(u, user, env, done);
    SyncExtends(t, user, env, done);
    SyncExtends(u, user, env, done);
    RunSyncSplit(u, user, env, done, rest);
    RunSyncSplit(t, user, env, done, rest);
    if Keyed(done) {
      RunTakes(t, user, env, done);
      TakenRunsIdle(u, user, env, done);
    } else {
      var i :| 0 <= i < k && Keyless(done[i]);
      KeylessAdds(u, user, env, done, i);
      forall j | 0 <= j < k && !Keyless(done[j]) ensures Taken(u, user, done[j]) {
        RunTakesKeyed(t, user, env, done, j);
      }
      RerunSameTaken(u, user, env, done);
      RunSameTaken(u, w, user, env, rest);
    }
  }

  lemma {:induction false} RunSyncExecuted(t: Tables, user: UserId, env: Env, stmts: seq<Stmt>)
    ensures RunSync(t, user, env, stmts) == RunSync(t, user, env, stmts[..Executed(env, stmts)])
  {
    var n := Executed(env, stmts);
    assert stmts == stmts[..n] + stmts[n..];
    RunSyncSplit(t, user, env, stmts[..n], stmts[n..]);
  }

  lemma {:induction false} KeylessAdds(t: Tables, user: UserId, env: Env, stmts: seq<Stmt>, i: nat)
    requires NextFresh(t) && RunsThrough(env, stmts) && i < |stmts| && Keyless(stmts[i])
    ensures RunSync(t, user, env, stmts).next > t.next
    decreases |stmts|
  {
    var u := Do(t, user, stmts[0]);
    DoExtends(t, user, stmts[0]);
    SyncExtends(u, user, env, stmts[1..]);
    if i > 0 {
      KeylessAdds(u, user, env, stmts[1..], i - 1);
    }
  }

  /**
   * Sending the same payload twice equals sending it once exactly when every session it gets to insert
   * carries a pdf_hash.
   */
  lemma {:induction false} IdempotentIff(t: Tables, user: UserId, env: Env, stmts: seq<Stmt>)
    requires NextFresh(t)
    ensures var once := RunSync(t, user, env, stmts);
            RunSync(once, user, env, stmts) == once <==> Keyed(stmts[..Executed(env, stmts)])
  {
    var run := stmts[..Executed(env, stmts)];
    var once := RunSync(t, user, env, stmts);
    RunSyncExecuted(t, user, env, stmts);
    RunSyncExecuted(once, user, env, stmts);
    SyncExtends(t, user, env, stmts);
    if Keyed(run) {
      RunTakes(t, user, env, run);
      TakenRunsIdle(once, user, env, run);
    } else {
      var i :| 0 <= i < |run| && Keyless(run[i]);
      KeylessAdds(once, user, env, run, i);
    }
  }

  // ---------------------------------------------------------- what gets stored

  /** A session of the user just as it was sent. */
  predicate SessionStored(rows: Rows, user: UserId, s: SessionIn, id: SessionId) {
    id in rows && rows[id].user == user && rows[id].hash == s.hash && rows[id].status == s.status
      && rows[id].meta == s.meta
  }

  /** The statement's row is there just as it was sent; a session's under an id that was not there before. */
  predicate Stored(t: Tables, u: Tables, user: UserId, stmt: Stmt) {
    match stmt
    case PutSubject(name, color) => (user, name) in u.subjects && u.subjects[(user, name)] == color
    case CheckSubjects(_) => true
    case PutSession(s) => exists id | id in u.rows :: id !in t.rows && SessionStored(u.rows, user, s, id)
    case PutReview(r) =>
      var key := ReviewKey(user, r.session, r.question);
      key in u.reviews && u.reviews[key] == r.schedule
  }

  lemma {:induction false} DoStores(t: Tables, user: UserId, stmt: Stmt)
    requires NextFresh(t) && !Taken(t, user, stmt)
    ensures Stored(t, Do(t, user, stmt), user, stmt)
  {
    if stmt.PutSession? {
      assert SessionStored(Do(t, user, stmt).rows, user, stmt.session, t.next);
    }
  }

  lemma {:induction false} StoredStays(t: Tables, u: Tables, v: Tables, user: UserId, stmt: Stmt)
    requires Stored(t, u, user, stmt) && Extends(u, v)
    ensures Stored(t, v, user, stmt)
  {
    if stmt.PutSession? {
      var id :| id in u.rows && id !in t.rows && SessionStored(u.rows, user, stmt.session, id);
      assert SessionStored(v.rows, user, stmt.session, id);
    }
  }

  lemma {:induction false} StoredLater(t: Tables, t': Tables, u: Tables, user: UserId, stmt: Stmt)
    requires Stored(t', u, user, stmt) && Extends(t, t')
    ensures Stored(t, u, user, stmt)
  {
    if stmt.PutSession? {
      var id :| id in u.rows && id !in t'.rows && SessionStored(u.rows, user, stmt.session, id);
      assert id !in t.rows;
    }
  }

  /**
   * What a run stores: the first statement for a natural key that was not in its table before, and every
   * session without a hash, ends up in the table just as it was sent.
   */
  lemma {:induction false} FirstIsStored(t: Tables, user: UserId, env: Env, stmts: seq<Stmt>, i: nat)
    requires NextFresh(t) && RunsThrough(env, stmts) && i < |stmts| && !Taken(t, user, stmts[i])
    requires forall j | 0 <= j < i :: !SameTarget(stmts[j], stmts[i])
    ensures Stored(t, RunSync(t, user, env, stmts), user, stmts[i])
    decreases |stmts|
  {
    var u := Do(t, user, stmts[0]);
    DoExtends(t, user, stmts[0]);
    SyncExtends(u, user, env, stmts[1..]);
    if i == 0 {
      DoStores(t, user, stmts[0]);
      StoredStays(t, u, RunSync(u, user, env, stmts[1..]), user, stmts[0]);
    } else {
      TakenAfter(t, user, stmts[0], stmts[i]);
      FirstIsStored(u, user, env, stmts[1..], i - 1);
      StoredLater(t, u, RunSync(u, user, env, stmts[1..]), user, stmts[i]);
    }
  }
}
