/** user_store.py: the data access object over one user database, statement by statement. */
module UserStores {
  import opened Wrappers
  import opened StudyTypes
  import opened UserRows
  import opened BulkSync

  datatype Entry = Entry(id: SessionId, row: Row)

  datatype SyncPayload = SyncPayload(
    subjects: seq<(string, string)>, sessions: seq<SessionIn>, reviews: seq<ReviewIn>)

  datatype Synced = Synced(subjects: nat, sessions: nat, reviews: nat)

  // ------------------------------------------------- the payload as statements

  function SubjectStmts(subjects: seq<(string, string)>): (r: seq<Stmt>)
    ensures |r| == |subjects|
  {
    seq(|subjects|, i requires 0 <= i < |subjects| => PutSubject(subjects[i].0, subjects[i].1))
  }

  function ReferredSubjects(sessions: seq<SessionIn>): set<nat> {
    set s | s in sessions && s.meta.subject.Some? :: s.meta.subject.value
  }

  /** The ownership check comes first; an empty list does nothing at all. */
  function SessionStmts(sessions: seq<SessionIn>): (r: seq<Stmt>)
    ensures |r| == if sessions == [] then 0 else |sessions| + 1
  {
    if sessions == [] then []
    else
      [CheckSubjects(ReferredSubjects(sessions))]
      + seq(|sessions|, i requires 0 <= i < |sessions| => PutSession(sessions[i]))
  }

  function ReviewStmts(reviews: seq<ReviewIn>): (r: seq<Stmt>)
    ensures |r| == |reviews|
  {
    seq(|reviews|, i requires 0 <= i < |reviews| => PutReview(reviews[i]))
  }

  function Statements(p: SyncPayload): seq<Stmt> {
    SubjectStmts(p.subjects) + SessionStmts(p.sessions) + ReviewStmts(p.reviews)
  }

  /** A request that dies before its statement number crash, if it gets that far. */
  function CutRun(t: Tables, user: UserId, env: Env, stmts: seq<Stmt>, crash: nat): Tables {
    RunSync(t, user, env, if crash < |stmts| then stmts[..crash] else stmts)
  }

  predicate Completes(env: Env, stmts: seq<Stmt>, crash: nat) {
    RunsThrough(env, stmts) && crash >= |stmts|
  }

  lemma {:induction false} RunSyncSnoc(t: Tables, user: UserId, env: Env, stmts: seq<Stmt>, i: nat)
    requires i < |stmts| && RunsThrough(env, stmts[..i]) && !Raises(stmts[i], env)
    ensures RunsThrough(env, stmts[..i + 1])
    ensures RunSync(t, user, env, stmts[..i + 1]) == Do(RunSync(t, user, env, stmts[..i]), user, stmts[i])
  {
    assert stmts[..i + 1] == stmts[..i] + [stmts[i]];
    RunSyncSplit(t, user, env, stmts[..i], [stmts[i]]);
    var u := RunSync(t, user, env, stmts[..i]);
    assert [stmts[i]][1..] == [];
    assert RunSync(Do(u, user, stmts[i]), user, env, []) == Do(u, user, stmts[i]);
  }

  // ------------------------------------------------------------- listings

  /** SELECT ... WHERE user_id ORDER BY created_at DESC, from the ids in creation order. */
  function Select(rows: Rows, order: seq<SessionId>, user: UserId): seq<Entry> {
    if order == [] then []
    else
      var id := order[|order| - 1];
      (if Owns(rows, user, id) then [Entry(id, rows[id])] else []) + Select(rows, order[..|order| - 1], user)
  }

  function MarkReady(listed: seq<Entry>, ids: set<SessionId>): (r: seq<Entry>)
    ensures |r| == |listed|
  {
    if listed == [] then []
    else
      [if listed[0].id in ids then listed[0].(row := listed[0].row.(status := READY)) else listed[0]]
      + MarkReady(listed[1..], ids)
  }

  lemma {:induction false} MarkReadyAppend(xs: seq<Entry>, ys: seq<Entry>, ids: set<SessionId>)
    ensures MarkReady(xs + ys, ids) == MarkReady(xs, ids) + MarkReady(ys, ids)
  {
    if xs == [] {
      assert xs + ys == ys;
    } else {
      assert (xs + ys)[1..] == xs[1..] + ys;
      MarkReadyAppend(xs[1..], ys, ids);
    }
  }

  /** Marking the rows read earlier gives the listing of the healed table: same rows, same order. */
  lemma {:induction false} MarkedIsHealed(rows: Rows, order: seq<SessionId>, user: UserId, ids: set<SessionId>)
    ensures MarkReady(Select(rows, order, user), ids) == Select(Promote(rows, user, ids), order, user)
  {
    if order != [] {
      var n := |order| - 1;
      var head := if Owns(rows, user, order[n]) then [Entry(order[n], rows[order[n]])] else [];
      MarkedIsHealed(rows, order[..n], user, ids);
      MarkReadyAppend(head, Select(rows, order[..n], user), ids);
    }
  }

  lemma {:induction false} SelectComplete(rows: Rows, order: seq<SessionId>, user: UserId)
    ensures forall e: Entry :: e in Select(rows, order, user) <==>
              e.id in order && Owns(rows, user, e.id) && e.row == rows[e.id]
  {
    if order != [] {
      SelectComplete(rows, order[..|order| - 1], user);
      forall id ensures id in order <==> id in order[..|order| - 1] || id == order[|order| - 1] { }
    }
  }

  /** In creation order x comes before y. */
  predicate Older(order: seq<SessionId>, x: SessionId, y: SessionId) {
    exists p, q | 0 <= p < q < |order| :: order[p] == x && order[q] == y
  }

  /** The newest first: a later entry is an older session. */
  predicate NewestFirst(listed: seq<Entry>, order: seq<SessionId>) {
    forall a, b | 0 <= a < b < |listed| :: Older(order, listed[b].id, listed[a].id)
  }

  /** The sessions of the user, each once, with their rows. */
  predicate Lists(listed: seq<Entry>, rows: Rows, user: UserId) {
    && (forall e | e in listed :: Owns(rows, user, e.id) && e.row == rows[e.id])
    && (forall a, b | 0 <= a < b < |listed| :: listed[a].id != listed[b].id)
    && (forall id | id in rows && rows[id].user == user :: Entry(id, rows[id]) in listed)
  }

  lemma {:induction false} OlderStill(order: seq<SessionId>, last: SessionId, x: SessionId, y: SessionId)
    requires Older(order, x, y)
    ensures Older(order + [last], x, y)
  {
    var p, q :| 0 <= p < q < |order| && order[p] == x && order[q] == y;
    assert (order + [last])[p] == x && (order + [last])[q] == y;
  }

  lemma {:induction false} OlderThanLast(order: seq<SessionId>, last: SessionId, x: SessionId)
    requires x in order
    ensures Older(order + [last], x, last)
  {
    var p :| 0 <= p < |order| && order[p] == x;
    assert (order + [last])[p] == x && (order + [last])[|order|] == last;
  }

  lemma {:induction false} NewestOnTop(rest: seq<Entry>, last: SessionId, order: seq<SessionId>)
    requires NewestFirst(rest, order) && forall x | x in rest :: x.id in order
    ensures NewestFirst(rest, order + [last])
    ensures forall row :: NewestFirst([Entry(last, row)] + rest, order + [last])
  {
    forall a, b | 0 <= a < b < |rest| ensures Older(order + [last], rest[b].id, rest[a].id) {
      OlderStill(order, last, rest[b].id, rest[a].id);
    }
    forall b | 0 <= b < |rest| ensures Older(order + [last], rest[b].id, last) {
      assert rest[b] in rest;
      OlderThanLast(order, last, rest[b].id);
    }
  }

  lemma {:induction false} SelectNewestFirst(rows: Rows, order: seq<SessionId>, user: UserId)
    ensures NewestFirst(Select(rows, order, user), order)
  {
    if order != [] {
      var n := |order| - 1;
      var id := order[n];
      SelectNewestFirst(rows, order[..n], user);
      SelectComplete(rows, order[..n], user);
      assert order == order[..n] + [id];
      NewestOnTop(Select(rows, order[..n], user), id, order[..n]);
    }
  }

  lemma {:induction false} SelectLists(rows: Rows, order: seq<SessionId>, user: UserId)
    requires Distinct(order) && forall id | id in rows :: id in order
    ensures Lists(Select(rows, order, user), rows, user)
  {
    var listed := Select(rows, order, user);
    SelectComplete(rows, order, user);
    SelectNewestFirst(rows, order, user);
    forall a, b | 0 <= a < b < |listed| ensures listed[a].id != listed[b].id {
      assert Older(order, listed[b].id, listed[a].id);
    }
  }

  predicate Distinct(order: seq<SessionId>) {
    forall i, j | 0 <= i < j < |order| :: order[i] != order[j]
  }

  function ToSet(ids: seq<SessionId>): set<SessionId> {
    set id | id in ids
  }

  function Ids(entries: seq<Entry>): seq<SessionId> {
    if entries == [] then [] else Ids(entries[..|entries| - 1]) + [entries[|entries| - 1].id]
  }

  predicate IsCandidate(e: Entry) {
    e.row.status == PENDING && e.row.hash.Some?
  }

  /** The rows a listing collects as pending_ids and pending_hashes. */
  function Candidates(listed: seq<Entry>): (r: seq<Entry>)
    ensures forall e :: e in r <==> e in listed && IsCandidate(e)
  {
    if listed == [] then []
    else
      var e := listed[|listed| - 1];
      assert listed == listed[..|listed| - 1] + [e];
      var before := Candidates(listed[..|listed| - 1]);
      if IsCandidate(e) then before + [e] else before
  }

  function HashOf(e: Entry): Hash {
    if e.row.hash.Some? then e.row.hash.value else 0
  }

  function Hashes(entries: seq<Entry>): seq<Hash> {
    if entries == [] then [] else Hashes(entries[..|entries| - 1]) + [HashOf(entries[|entries| - 1])]
  }

  lemma {:induction false} IdsAndHashes(entries: seq<Entry>)
    ensures |Ids(entries)| == |entries| && |Hashes(entries)| == |entries|
    ensures forall k | 0 <= k < |entries| ::
              Ids(entries)[k] == entries[k].id && Hashes(entries)[k] == HashOf(entries[k])
  {
    if entries != [] {
      IdsAndHashes(entries[..|entries| - 1]);
    }
  }

  lemma {:induction false} IdsOf(entries: seq<Entry>)
    ensures forall id :: id in Ids(entries) <==> exists e :: e in entries && e.id == id
  {
    if entries != [] {
      var init, e := entries[..|entries| - 1], entries[|entries| - 1];
      IdsOf(init);
      assert entries == init + [e];
      forall id ensures id in Ids(entries) <==> exists x :: x in entries && x.id == id {
        if id == e.id {
          assert e in entries;
        }
      }
    }
  }

  /** heal_ids: the candidates whose hash the bank knows. */
  function BankedOnes(candidates: seq<Entry>, bank: set<Hash>): (r: seq<Entry>)
    ensures forall e :: e in r <==> e in candidates && HashOf(e) in bank
  {
    if candidates == [] then []
    else
      var e := candidates[|candidates| - 1];
      assert candidates == candidates[..|candidates| - 1] + [e];
      var before := BankedOnes(candidates[..|candidates| - 1], bank);
      if HashOf(e) in bank then before + [e] else before
  }

  /** What a listing collects to heal is exactly what Healed promotes. */
  lemma {:induction false} CollectedIsBanked(rows: Rows, order: seq<SessionId>, user: UserId, bank: set<Hash>)
    requires forall id :: id in order <==> id in rows
    ensures var heal := Ids(BankedOnes(Candidates(Select(rows, order, user)), bank));
            ToSet(heal) == Banked(PendingHashes(rows, user), bank)
  {
    var listed := Select(rows, order, user);
    var ones := BankedOnes(Candidates(listed), bank);
    SelectComplete(rows, order, user);
    IdsOf(ones);
    forall id ensures id in Ids(ones) <==> id in Banked(PendingHashes(rows, user), bank) {
      if id in Ids(ones) {
        var e :| e in ones && e.id == id;
        assert e in listed;
      }
      if id in Banked(PendingHashes(rows, user), bank) {
        assert Entry(id, rows[id]) in listed;
        assert Entry(id, rows[id]) in ones;
      }
    }
  }

  lemma {:induction false} PrefixStep(listed: seq<Entry>, i: nat)
    requires i < |listed|
    ensures var before, after := Candidates(listed[..i]), Candidates(listed[..i + 1]);
            if IsCandidate(listed[i]) then
              Ids(after) == Ids(before) + [listed[i].id] && Hashes(after) == Hashes(before) + [HashOf(listed[i])]
            else after == before
  {
    assert listed[..i + 1][..i] == listed[..i];
    var before := Candidates(listed[..i]);
    assert (before + [listed[i]])[..|before|] == before;
  }

  lemma {:induction false} BankedStep(candidates: seq<Entry>, k: nat, bank: set<Hash>)
    requires k < |candidates|
    ensures var before, after := BankedOnes(candidates[..k], bank), BankedOnes(candidates[..k + 1], bank);
            Ids(after) == if HashOf(candidates[k]) in bank then Ids(before) + [candidates[k].id] else Ids(before)
  {
    assert candidates[..k + 1][..k] == candidates[..k];
    var before := BankedOnes(candidates[..k], bank);
    assert (before + [candidates[k]])[..|before|] == before;
  }

  /** First loop of the self-heal: the pending rows with a hash, ids and hashes side by side. */
  method CollectPending(listed: seq<Entry>) returns (pendingIds: seq<SessionId>, pendingHashes: seq<Hash>)
    ensures pendingIds == Ids(Candidates(listed))
    ensures pendingHashes == Hashes(Candidates(listed))
  {
    pendingIds, pendingHashes := [], [];
    for i := 0 to |listed|
      invariant pendingIds == Ids(Candidates(listed[..i]))
      invariant pendingHashes == Hashes(Candidates(listed[..i]))
    {
      PrefixStep(listed, i);
      var row := listed[i].row;
      if row.status == PENDING && row.hash.Some? {
        pendingIds := pendingIds + [listed[i].id];
        pendingHashes := pendingHashes + [row.hash.value];
      }
    }
    assert listed[..|listed|] == listed;
  }

  /** Second loop of the self-heal: the ids whose hash the bank answered with. */
  method MatchBank(pendingIds: seq<SessionId>, pendingHashes: seq<Hash>, bank: set<Hash>, ghost candidates: seq<Entry>)
    returns (healIds: seq<SessionId>)
    requires pendingIds == Ids(candidates) && pendingHashes == Hashes(candidates)
    ensures healIds == Ids(BankedOnes(candidates, bank))
  {
    IdsAndHashes(candidates);
    healIds := [];
    for k := 0 to |pendingIds|
      invariant healIds == Ids(BankedOnes(candidates[..k], bank))
    {
      BankedStep(candidates, k, bank);
      if pendingHashes[k] in bank {
        healIds := healIds + [pendingIds[k]];
      }
    }
    assert candidates[..|candidates|] == candidates;
  }

  lemma {:induction false} PromoteKeepsKeys(rows: Rows, user: UserId, ids: set<SessionId>)
    requires UniqueKeys(rows)
    ensures UniqueKeys(Promote(rows, user, ids)) && Promote(rows, user, ids).Keys == rows.Keys
    ensures ids == {} ==> Promote(rows, user, ids) == rows
  {
    var after := Promote(rows, user, ids);
    forall a, b | a in after && b in after && SameKey(after[a], after[b].user, after[b].hash) ensures a == b {
      assert SameKey(rows[a], rows[b].user, rows[b].hash);
    }
  }

  /** Promoting what the two loops collected is the heal, and marking what was read shows its result. */
  lemma {:induction false} HealResult(rows: Rows, order: seq<SessionId>, user: UserId, bank: set<Hash>,
                                      healIds: seq<SessionId>)
    requires UniqueKeys(rows) && forall id :: id in order <==> id in rows
    requires healIds == Ids(BankedOnes(Candidates(Select(rows, order, user)), bank))
    ensures var ids := ToSet(healIds);
            && Promote(rows, user, ids) == Healed(rows, user, bank)
            && MarkReady(Select(rows, order, user), ids) == Select(Healed(rows, user, bank), order, user)
    ensures UniqueKeys(Healed(rows, user, bank)) && Healed(rows, user, bank).Keys == rows.Keys
    ensures healIds == [] ==> Healed(rows, user, bank) == rows
  {
    var ids := ToSet(healIds);
    CollectedIsBanked(rows, order, user, bank);
    MarkedIsHealed(rows, order, user, ids);
    PromoteKeepsKeys(rows, user, ids);
  }

  lemma {:induction false} RemoveId(order: seq<SessionId>, at: nat)
    requires at < |order| && Distinct(order)
    ensures var rest := order[..at] + order[at + 1..];
            Distinct(rest) && (forall x :: x in rest <==> x in order && x != order[at])
            && forall x, y :: Older(rest, x, y) ==> Older(order, x, y)
  {
    var rest := order[..at] + order[at + 1..];
    forall x | x in order && x != order[at] ensures x in rest {
      var k :| 0 <= k < |order| && order[k] == x;
      assert rest[if k < at then k else k - 1] == x;
    }
    forall x, y | Older(rest, x, y) ensures Older(order, x, y) {
      var p, q :| 0 <= p < q < |rest| && rest[p] == x && rest[q] == y;
      assert order[if p < at then p else p + 1] == x && order[if q < at then q else q + 1] == y;
    }
  }

  // -------------------------------------------------------------- the class

  lemma {:induction false} ListingLaws(rows: Rows, order: seq<SessionId>, user: UserId, bank: set<Hash>)
    requires Distinct(order) && forall id | id in rows :: id in order
    ensures NewestFirst(Select(rows, order, user), order) && Lists(Select(rows, order, user), rows, user)
    ensures var healed := Healed(rows, user, bank);
            NewestFirst(Select(healed, order, user), order) && Lists(Select(healed, order, user), healed, user)
  {
    var healed := Healed(rows, user, bank);
    HealedExactly(rows, user, bank);
    SelectNewestFirst(rows, order, user);
    SelectNewestFirst(healed, order, user);
    SelectLists(rows, order, user);
    SelectLists(healed, order, user);
  }

  /** The subject of the row is not one of the user's own. */
  predicate Refused(row: Row, owned: set<nat>) {
    row.meta.subject.Some? && row.meta.subject.value !in owned
  }

  class UserStore {
    var subjects: map<(UserId, string), string>
    var rows: Rows
    var order: seq<SessionId>
    var next: SessionId
    var reviews: map<ReviewKey, nat>

    ghost predicate Valid()
      reads this
    {
      && UniqueKeys(rows)
      && (forall id :: id in order <==> id in rows)
      && Distinct(order)
      && NextFresh(Current())
    }

    ghost function Current(): Tables
      reads this
    {
      Tables(subjects, rows, next, reviews)
    }

    constructor ()
      ensures Valid() && Current() == Tables(map[], map[], 0, map[])
    {
      subjects, rows, order, next, reviews := map[], map[], [], 0, map[];
    }

    /** The row an ON CONFLICT (user_id, pdf_hash) would meet. */
    method FindConflict(user: UserId, hash: Option<Hash>) returns (r: Option<SessionId>)
      requires Valid()
      ensures r.None? <==> KeyFree(rows, user, hash)
      ensures r.Some? ==> r.value in rows && SameKey(rows[r.value], user, hash)
    {
      for i := 0 to |order|
        invariant forall j | 0 <= j < i :: !SameKey(rows[order[j]], user, hash)
      {
        if SameKey(rows[order[i]], user, hash) {
          return Some(order[i]);
        }
      }
      forall id | id in rows ensures !SameKey(rows[id], user, hash) {
        assert id in order;
      }
      return None;
    }

    method Put(id: SessionId, row: Row)
      requires Valid() && id !in rows && KeyFree(rows, row.user, row.hash)
      modifies this`rows, this`order, this`next
      ensures Valid() && rows == old(rows)[id := row] && order == old(order) + [id]
      ensures next == if id < old(next) then old(next) else id + 1
    {
      rows := rows[id := row];
      order := order + [id];
      next := if id < next then next else id + 1;
      assert order[|order| - 1] == id;
      assert forall x | x in order :: x in old(order) || x == id;
      assert forall x | x in old(order) :: x in order;
    }

    /**
     * upsert_session: the returned id is the authoritative session id. Without a hash it is a plain
     * insert. A subject that is not the user's own raises before anything is written. None means that
     * something raised.
     */
    method UpsertSession(offered: SessionId, row: Row, owned: set<nat>, fault: Fault)
      returns (r: Option<SessionId>, ghost target: SessionId)
      requires Valid() && offered !in rows
      modifies this
      ensures Valid() && UpsertTarget(old(rows), offered, row.user, row.hash, target)
      ensures rows == if fault == Lost || Refused(row, owned) then old(rows) else Upsert(old(rows), target, row)
      ensures r == if fault == Up && !Refused(row, owned) then Some(target) else None
      ensures subjects == old(subjects) && reviews == old(reviews)
      ensures order == if target in rows && target !in old(rows) then old(order) + [target] else old(order)
    {
      var conflict := FindConflict(row.user, row.hash);
      var id := if conflict.Some? then conflict.value else offered;
      target := id;
      r := None;
      if row.meta.subject.Some? && row.meta.subject.value !in owned {
        return;
      }
      if fault == Lost {
        return;
      }
      match conflict {
        case Some(_) =>
          rows := rows[id := row.(status := KeptStatus(rows[id].status, row.status))];
          forall a, b | a in rows && b in rows && SameKey(rows[a], rows[b].user, rows[b].hash) ensures a == b {
            assert SameKey(old(rows)[a], old(rows)[b].user, old(rows)[b].hash);
          }
        case None => Put(offered, row);
      }
      r := if fault == Up then Some(id) else None;
    }

    /** update_session_status: whether one row matched; None means that the statement raised. */
    method UpdateSessionStatus(user: UserId, id: SessionId, status: RowStatus, fault: Fault) returns (r: Option<bool>)
      requires Valid()
      modifies this`rows
      ensures Valid()
      ensures rows == if fault == Lost then old(rows) else SetStatus(old(rows), user, id, status)
      ensures r == if fault == Up then Some(Owns(old(rows), user, id)) else None
    {
      var matched := id in rows && rows[id].user == user;
      if matched && fault != Lost {
        rows := rows[id := rows[id].(status := status)];
        forall a, b | a in rows && b in rows && SameKey(rows[a], rows[b].user, rows[b].hash) ensures a == b {
          assert SameKey(old(rows)[a], old(rows)[b].user, old(rows)[b].hash);
        }
      }
      r := if fault == Up then Some(matched) else None;
    }

    /** delete_session: whether one row matched; None means that the statement raised. */
    method DeleteSession(user: UserId, id: SessionId, fault: Fault) returns (r: Option<bool>)
      requires Valid()
      modifies this`rows, this`order, this`reviews
      ensures Valid()
      ensures rows == if fault == Lost then old(rows) else DeleteRow(old(rows), user, id)
      ensures r == if fault == Up then Some(Owns(old(rows), user, id)) else None
      ensures forall k :: k in reviews <==> k in old(reviews) && (k.session in rows || k.session !in old(rows))
      ensures forall k | k in reviews :: reviews[k] == old(reviews)[k]
      ensures forall x, y :: Older(order, x, y) ==> Older(old(order), x, y)
    {
      var matched := id in rows && rows[id].user == user;
      if matched && fault != Lost {
        rows := rows - {id};
        var at :| 0 <= at < |order| && order[at] == id;
        RemoveId(order, at);
        order := order[..at] + order[at + 1..];
        reviews := map k | k in reviews && k.session != id :: reviews[k];
        forall a, b | a in rows && b in rows && SameKey(rows[a], rows[b].user, rows[b].hash) ensures a == b {
          assert SameKey(old(rows)[a], old(rows)[b].user, old(rows)[b].hash);
        }
      }
      r := if fault == Up then Some(matched) else None;
    }

    /** The statements of a listing, on the ids in creation order. */
    method ReadAndHeal(user: UserId, bank: set<Hash>, read: Fault, ask: Fault, heal: Fault)
      returns (r: Option<seq<Entry>>)
      requires Valid()
      modifies this`rows
      ensures Valid()
      ensures r.None? <==> read != Up
      ensures rows == if read == Up && ask == Up && heal != Lost then Healed(old(rows), user, bank) else old(rows)
      ensures r.Some? && ask == Up && heal == Up ==> r.value == Select(rows, order, user)
      ensures r.Some? && !(ask == Up && heal == Up) ==> r.value == Select(old(rows), order, user)
    {
      if read != Up {
        return None;
      }
      var listed := Select(rows, order, user);
      var pendingIds, pendingHashes := CollectPending(listed);
      if ask != Up {
        return Some(listed);
      }
      var healIds := MatchBank(pendingIds, pendingHashes, bank, Candidates(listed));
      var healSet := ToSet(healIds);
      HealResult(rows, order, user, bank, healIds);
      if healIds == [] {
        return Some(listed);
      }
      if heal != Lost {
        rows := Promote(rows, user, healSet);
      }
      r := Some(if heal == Up then MarkReady(listed, healSet) else listed);
    }

    /**
     * get_sessions with its self-heal over two databases. With both up the table is healed and the answer
     * is what it now holds; a failing heal never hides the listing, which then shows what was read. Newest
     * first, every session of the user once, in either case.
     */
    method GetSessions(user: UserId, bank: set<Hash>, read: Fault, ask: Fault, heal: Fault)
      returns (r: Option<seq<Entry>>)
      requires Valid()
      modifies this`rows
      ensures Valid()
      ensures r.None? <==> read != Up
      ensures rows == if read == Up && ask == Up && heal != Lost then Healed(old(rows), user, bank) else old(rows)
      ensures r.Some? ==> NewestFirst(r.value, order)
      ensures r.Some? ==> Lists(r.value, if ask == Up && heal == Up then rows else old(rows), user)
    {
      ListingLaws(rows, order, user, bank);
      r := ReadAndHeal(user, bank, read, ask, heal);
    }

    /** sync_subjects; the request dies before its statement number `crash`, if it gets that far. */
    method SyncSubjects(user: UserId, items: seq<(string, string)>, ghost env: Env, crash: nat) returns (r: Option<nat>)
      requires Valid()
      modifies this`subjects
      ensures Valid()
      ensures Current() == CutRun(old(Current()), user, env, SubjectStmts(items), crash)
      ensures r.Some? <==> Completes(env, SubjectStmts(items), crash)
      ensures r.Some? ==> r.value == |items|
    {
      ghost var stmts := SubjectStmts(items);
      var count := 0;
      while count < |items|
        invariant count <= |items| && count <= crash
        invariant RunsThrough(env, stmts[..count])
        invariant Current() == RunSync(old(Current()), user, env, stmts[..count])
        invariant rows == old(rows) && order == old(order) && next == old(next) && reviews == old(reviews)
      {
        if count == crash {
          return None;
        }
        RunSyncSnoc(old(Current()), user, env, stmts, count);
        var (name, color) := items[count];
        if (user, name) !in subjects {
          subjects := subjects[(user, name) := color];
        }
        count := count + 1;
      }
      assert stmts[..count] == stmts;
      r := Some(count);
    }

    /** sync_sessions: the ownership check, then one insert-or-ignore per session. */
    method SyncSessions(user: UserId, items: seq<SessionIn>, env: Env, crash: nat) returns (r: Option<nat>)
      requires Valid()
      modifies this`rows, this`order, this`next
      ensures Valid()
      ensures Current() == CutRun(old(Current()), user, env, SessionStmts(items), crash)
      ensures r.Some? <==> Completes(env, SessionStmts(items), crash)
      ensures r.Some? ==> r.value == |items|
    {
      ghost var stmts := SessionStmts(items);
      if items == [] {
        return Some(0);
      }
      var referred := set s | s in items && s.meta.subject.Some? :: s.meta.subject.value;
      assert stmts[0] == CheckSubjects(ReferredSubjects(items));
      if crash == 0 || !(referred <= env.owned) {
        assert stmts[..0] == [];
        assert crash > 0 ==> Raises(stmts[0], env);
        return None;
      }
      ghost var t := old(Current());
      assert stmts[..0] == [];
      RunSyncSnoc(t, user, env, stmts, 0);
      var count := 0;
      while count < |items|
        invariant count <= |items| && count < crash
        invariant Valid()
        invariant RunsThrough(env, stmts[..count + 1])
        invariant Current() == RunSync(t, user, env, stmts[..count + 1])
        invariant subjects == old(subjects) && reviews == old(reviews)
      {
        if count + 1 == crash {
          return None;
        }
        RunSyncSnoc(t, user, env, stmts, count + 1);
        var row := RowOf(user, items[count]);
        var conflict := FindConflict(user, row.hash);
        if conflict.None? {
          Put(next, row);
        }
        count := count + 1;
      }
      assert stmts[..count + 1] == stmts;
      r := Some(count);
    }

    /** sync_reviews; a review of an unknown session violates the foreign key and raises. */
    method SyncReviews(user: UserId, items: seq<ReviewIn>, env: Env, crash: nat) returns (r: Option<nat>)
      requires Valid()
      modifies this`reviews
      ensures Valid()
      ensures Current() == CutRun(old(Current()), user, env, ReviewStmts(items), crash)
      ensures r.Some? <==> Completes(env, ReviewStmts(items), crash)
      ensures r.Some? ==> r.value == |items|
    {
      ghost var stmts := ReviewStmts(items);
      ghost var t := old(Current());
      var count := 0;
      while count < |items|
        invariant count <= |items| && count <= crash
        invariant RunsThrough(env, stmts[..count])
        invariant Current() == RunSync(t, user, env, stmts[..count])
        invariant subjects == old(subjects) && rows == old(rows) && order == old(order) && next == old(next)
      {
        if count == crash {
          return None;
        }
        var item := items[count];
        if item.session !in env.sessions {
          assert Raises(stmts[count], env);
          assert stmts[..|stmts|] == stmts;
          RaisedStops(t, user, env, stmts, count, if crash < |stmts| then crash else |stmts|);
          return None;
        }
        RunSyncSnoc(t, user, env, stmts, count);
        var key := ReviewKey(user, item.session, item.question);
        if key !in reviews {
          reviews := reviews[key := item.schedule];
        }
        count := count + 1;
      }
      assert stmts[..count] == stmts;
      r := Some(count);
    }
  }

  lemma {:induction false} RaisedStops(t: Tables, user: UserId, env: Env, stmts: seq<Stmt>, i: nat, done: nat)
    requires i < done <= |stmts| && RunsThrough(env, stmts[..i]) && Raises(stmts[i], env)
    ensures RunSync(t, user, env, stmts[..done]) == RunSync(t, user, env, stmts[..i])
  {
    assert stmts[..done] == stmts[..i] + stmts[i..done];
    RunSyncSplit(t, user, env, stmts[..i], stmts[i..done]);
  }

  /** The /user/sync handler: three passes in order; a pass that raises ends the request. */
  method Sync(store: UserStore, user: UserId, p: SyncPayload, env: Env, crash: nat) returns (r: Option<Synced>)
    requires store.Valid()
    modifies store
    ensures store.Valid()
    ensures store.Current() == CutRun(old(store.Current()), user, env, Statements(p), crash)
    ensures r.Some? <==> Completes(env, Statements(p), crash)
    ensures r.Some? ==> r.value == Synced(|p.subjects|, |p.sessions|, |p.reviews|)
  {
    ghost var t := store.Current();
    ghost var xs, ys, zs := SubjectStmts(p.subjects), SessionStmts(p.sessions), ReviewStmts(p.reviews);
    var sessionStmts := if p.sessions == [] then 0 else |p.sessions| + 1;
    var a := store.SyncSubjects(user, p.subjects, env, crash);
    FirstPass(t, user, env, xs, ys + zs, crash);
    assert xs + (ys + zs) == Statements(p);
    if a.None? {
      return None;
    }
    var b := store.SyncSessions(user, p.sessions, env, crash - |p.subjects|);
    NextPass(t, user, env, xs, ys, zs, crash);
    if b.None? {
      return None;
    }
    var c := store.SyncReviews(user, p.reviews, env, crash - |p.subjects| - sessionStmts);
    NextPass(t, user, env, xs + ys, zs, [], crash);
    assert xs + ys + zs + [] == Statements(p);
    if c.None? {
      return None;
    }
    r := Some(Synced(a.value, b.value, c.value));
  }

  lemma {:induction false} FirstPass(t: Tables, user: UserId, env: Env, pass: seq<Stmt>, after: seq<Stmt>, crash: nat)
    ensures Completes(env, pass, crash) ==> CutRun(t, user, env, pass, crash) == RunSync(t, user, env, pass)
    ensures !Completes(env, pass, crash) ==>
              && CutRun(t, user, env, pass, crash) == CutRun(t, user, env, pass + after, crash)
              && !Completes(env, pass + after, crash)
  {
    assert [] + pass == pass && RunSync(t, user, env, []) == t;
    NextPass(t, user, env, [], pass, after, crash);
  }

  /** One pass of a request, after passes that went through: it goes through, or it settles the request. */
  lemma {:induction false} NextPass(t: Tables, user: UserId, env: Env,
                                    before: seq<Stmt>, pass: seq<Stmt>, after: seq<Stmt>, crash: nat)
    requires RunsThrough(env, before) && crash >= |before|
    ensures var cut := crash - |before|;
            var u := CutRun(RunSync(t, user, env, before), user, env, pass, cut);
            && (Completes(env, pass, cut) ==>
                  RunsThrough(env, before + pass) && u == RunSync(t, user, env, before + pass)
                  && (after == [] ==> Completes(env, before + pass + after, crash)
                                      && u == CutRun(t, user, env, before + pass + after, crash)))
            && (!Completes(env, pass, cut) ==>
                  u == CutRun(t, user, env, before + pass + after, crash)
                  && !Completes(env, before + pass + after, crash))
  {
    if Completes(env, pass, crash - |before|) {
      RunSyncSplit(t, user, env, before, pass);
      assert after == [] ==> before + pass + after == before + pass;
    } else {
      PassStopped(t, user, env, before, pass, after, crash);
    }
  }

  /** A pass that crashed or raised leaves what the whole request leaves. */
  lemma {:induction false} PassStopped(t: Tables, user: UserId, env: Env,
                                       before: seq<Stmt>, pass: seq<Stmt>, after: seq<Stmt>, crash: nat)
    requires RunsThrough(env, before) && crash >= |before| && !Completes(env, pass, crash - |before|)
    ensures CutRun(RunSync(t, user, env, before), user, env, pass, crash - |before|)
            == CutRun(t, user, env, before + pass + after, crash)
    ensures !Completes(env, before + pass + after, crash)
  {
    var all := before + pass + after;
    var cut := crash - |before|;
    if cut < |pass| {
      assert all[..crash] == before + pass[..cut];
      RunSyncSplit(t, user, env, before, pass[..cut]);
    } else {
      var i := Executed(env, pass);
      assert pass[..|pass|] == pass;
      RunSyncExecuted(RunSync(t, user, env, before), user, env, pass);
      RunSyncSplit(t, user, env, before, pass[..i]);
      assert all[..|before| + i] == before + pass[..i];
      assert all[|before| + i] == pass[i];
      assert all[..|all|] == all;
      RaisedStops(t, user, env, all, |before| + i, if crash < |all| then crash else |all|);
    }
  }

  // ------------------------------------------------------ what a payload leaves

  lemma {:induction false} StatementsAre(p: SyncPayload)
    ensures var stmts, n, m := Statements(p), |p.subjects|, if p.sessions == [] then 0 else |p.sessions| + 1;
            && |stmts| == n + m + |p.reviews|
            && (forall i | 0 <= i < n :: stmts[i] == PutSubject(p.subjects[i].0, p.subjects[i].1))
            && (forall i | 0 <= i < |p.sessions| :: stmts[n + 1 + i] == PutSession(p.sessions[i]))
            && (forall i | 0 <= i < |p.reviews| :: stmts[n + m + i] == PutReview(p.reviews[i]))
  {
  }

  /** A session that the payload sends first under its key, and that the table does not have, is stored as sent. */
  lemma {:induction false} SessionSent(t: Tables, user: UserId, env: Env, p: SyncPayload, i: nat)
    requires NextFresh(t) && RunsThrough(env, Statements(p)) && i < |p.sessions|
    requires KeyFree(t.rows, user, p.sessions[i].hash)
    requires forall j | 0 <= j < i :: p.sessions[i].hash.None? || p.sessions[j].hash != p.sessions[i].hash
    ensures var rows := RunSync(t, user, env, Statements(p)).rows;
            exists id | id in rows :: id !in t.rows && SessionStored(rows, user, p.sessions[i], id)
  {
    StatementsAre(p);
    var stmts, at := Statements(p), |p.subjects| + 1 + i;
    forall j | 0 <= j < at ensures !SameTarget(stmts[j], stmts[at]) {
      EarlierStatement(p, i, j);
    }
    FirstIsStored(t, user, env, stmts, at);
  }

  lemma {:induction false} EarlierStatement(p: SyncPayload, i: nat, j: nat)
    requires i < |p.sessions| && j < |p.subjects| + 1 + i
    requires forall k | 0 <= k < i :: p.sessions[i].hash.None? || p.sessions[k].hash != p.sessions[i].hash
    ensures j < |Statements(p)| && !SameTarget(Statements(p)[j], PutSession(p.sessions[i]))
  {
    StatementsAre(p);
    if j > |p.subjects| {
      assert Statements(p)[|p.subjects| + 1 + (j - |p.subjects| - 1)] == PutSession(p.sessions[j - |p.subjects| - 1]);
    } else if j == |p.subjects| {
      assert Statements(p)[j] == CheckSubjects(ReferredSubjects(p.sessions));
    }
  }

  /** A subject or review that the payload sends first under its key is stored as sent, unless it was there. */
  lemma {:induction false} SubjectsAndReviewsSent(t: Tables, user: UserId, env: Env, p: SyncPayload)
    requires NextFresh(t) && RunsThrough(env, Statements(p))
    ensures var u := RunSync(t, user, env, Statements(p));
            && (forall i | 0 <= i < |p.subjects| && (user, p.subjects[i].0) !in t.subjects
                           && (forall j | 0 <= j < i :: p.subjects[j].0 != p.subjects[i].0) ::
                  SubjectStored(u, user, p.subjects[i].0, p.subjects[i].1))
            && (forall i | 0 <= i < |p.reviews| && ReviewKeyOf(user, p.reviews[i]) !in t.reviews
                           && (forall j | 0 <= j < i ::
                             ReviewKeyOf(user, p.reviews[j]) != ReviewKeyOf(user, p.reviews[i])) ::
                  ReviewStored(u, user, p.reviews[i]))
  {
    StatementsAre(p);
    var stmts := Statements(p);
    forall i | 0 <= i < |p.subjects| && (user, p.subjects[i].0) !in t.subjects
               && (forall j | 0 <= j < i :: p.subjects[j].0 != p.subjects[i].0)
      ensures SubjectStored(RunSync(t, user, env, stmts), user, p.subjects[i].0, p.subjects[i].1)
    {
      FirstIsStored(t, user, env, stmts, i);
    }
    forall i | 0 <= i < |p.reviews| && ReviewKeyOf(user, p.reviews[i]) !in t.reviews
               && (forall j | 0 <= j < i :: ReviewKeyOf(user, p.reviews[j]) != ReviewKeyOf(user, p.reviews[i]))
      ensures ReviewStored(RunSync(t, user, env, stmts), user, p.reviews[i])
    {
      ReviewSent(t, user, env, p, i);
    }
  }

  predicate SubjectStored(u: Tables, user: UserId, name: string, color: string) {
    (user, name) in u.subjects && u.subjects[(user, name)] == color
  }

  function ReviewKeyOf(user: UserId, r: ReviewIn): ReviewKey {
    ReviewKey(user, r.session, r.question)
  }

  predicate ReviewStored(u: Tables, user: UserId, r: ReviewIn) {
    ReviewKeyOf(user, r) in u.reviews && u.reviews[ReviewKeyOf(user, r)] == r.schedule
  }

  lemma {:induction false} ReviewSent(t: Tables, user: UserId, env: Env, p: SyncPayload, i: nat)
    requires NextFresh(t) && RunsThrough(env, Statements(p)) && i < |p.reviews|
    requires ReviewKeyOf(user, p.reviews[i]) !in t.reviews
    requires forall j | 0 <= j < i :: ReviewKeyOf(user, p.reviews[j]) != ReviewKeyOf(user, p.reviews[i])
    ensures ReviewStored(RunSync(t, user, env, Statements(p)), user, p.reviews[i])
  {
    StatementsAre(p);
    var stmts := Statements(p);
    var at := |stmts| - |p.reviews| + i;
    forall j | 0 <= j < at ensures !SameTarget(stmts[j], stmts[at]) {
      if j >= |stmts| - |p.reviews| {
        assert stmts[j] == PutReview(p.reviews[j - (|stmts| - |p.reviews|)]);
      } else {
        NotAReview(p, j);
      }
    }
    FirstIsStored(t, user, env, stmts, at);
  }

  lemma {:induction false} NotAReview(p: SyncPayload, j: nat)
    requires j < |Statements(p)| - |p.reviews|
    ensures !Statements(p)[j].PutReview?
  {
    assert Statements(p)[j] == (SubjectStmts(p.subjects) + SessionStmts(p.sessions))[j];
  }

  /** A session of somebody else's subject ends the request with all subjects stored, and no session or review. */
  lemma {:induction false} ForeignSubjectStops(t: Tables, user: UserId, env: Env, p: SyncPayload, i: nat)
    requires i < |p.sessions| && p.sessions[i].meta.subject.Some? && p.sessions[i].meta.subject.value !in env.owned
    ensures RunSync(t, user, env, Statements(p)) == RunSync(t, user, env, SubjectStmts(p.subjects))
    ensures RunsThrough(env, SubjectStmts(p.subjects)) && !RunsThrough(env, Statements(p))
  {
    var xs, rest := SubjectStmts(p.subjects), SessionStmts(p.sessions) + ReviewStmts(p.reviews);
    assert Statements(p) == xs + rest;
    assert p.sessions[i] in p.sessions;
    assert p.sessions[i].meta.subject.value in ReferredSubjects(p.sessions);
    assert rest[0] == CheckSubjects(ReferredSubjects(p.sessions));
    RunSyncSplit(t, user, env, xs, rest);
    assert Raises(Statements(p)[|xs|], env);
  }

  predicate OwnSubjects(env: Env, p: SyncPayload) {
    forall i | 0 <= i < |p.sessions|
      && p.sessions[i].meta.subject.Some? :: p.sessions[i].meta.subject.value in env.owned
  }

  predicate KnownSessions(env: Env, p: SyncPayload) {
    forall i | 0 <= i < |p.reviews| :: p.reviews[i].session in env.sessions
  }

  /** A request goes through exactly when its sessions' subjects are the user's own and its reviews' sessions exist. */
  lemma {:induction false} GoesThroughIff(env: Env, p: SyncPayload)
    ensures RunsThrough(env, Statements(p)) <==> OwnSubjects(env, p) && KnownSessions(env, p)
  {
    StatementsAre(p);
    var stmts := Statements(p);
    var n := |stmts| - |p.reviews|;
    if OwnSubjects(env, p) && KnownSessions(env, p) {
      forall j | 0 <= j < |stmts| ensures !Raises(stmts[j], env) {
        if j >= n {
          assert stmts[j] == PutReview(p.reviews[j - n]);
        } else if j >= |p.subjects| {
          assert stmts[j] == SessionStmts(p.sessions)[j - |p.subjects|];
        }
      }
    }
    if RunsThrough(env, stmts) {
      forall i | 0 <= i < |p.reviews| ensures p.reviews[i].session in env.sessions {
        assert !Raises(stmts[n + i], env);
      }
      forall i | 0 <= i < |p.sessions| && p.sessions[i].meta.subject.Some?
        ensures p.sessions[i].meta.subject.value in env.owned
      {
        if p.sessions[i].meta.subject.value !in env.owned {
          ForeignSubjectStops(Tables(map[], map[], 0, map[]), 0, env, p, i);
        }
      }
    }
  }
}
