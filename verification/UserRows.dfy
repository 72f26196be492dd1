/** The SQL statements of user_store.py as functions on the user_sessions table. */
module UserRows {
  import opened Wrappers
  import opened StudyTypes

  type Rows = map<SessionId, Row>

  predicate SameKey(row: Row, user: UserId, hash: Option<Hash>) {
    hash.Some? && row.user == user && row.hash == hash
  }

  /** No row conflicts on (user_id, pdf_hash); a NULL hash never conflicts. */
  predicate KeyFree(rows: Rows, user: UserId, hash: Option<Hash>) {
    forall id | id in rows :: !SameKey(rows[id], user, hash)
  }

  /** The unique constraint of migration 003. */
  predicate UniqueKeys(rows: Rows) {
    forall a, b | a in rows && b in rows && SameKey(rows[a], rows[b].user, rows[b].hash) :: a == b
  }

  /** The id the upsert works on: the conflicting row, or the id offered for a new one. */
  predicate UpsertTarget(rows: Rows, offered: SessionId, user: UserId, hash: Option<Hash>, target: SessionId) {
    if KeyFree(rows, user, hash) then target == offered
    else target in rows && SameKey(rows[target], user, hash)
  }

  /** ready and failed survive a re-upload. */
  function KeptStatus(before: RowStatus, offered: RowStatus): RowStatus {
    if before == READY || before == FAILED then before else offered
  }

  function Upsert(rows: Rows, target: SessionId, row: Row): Rows {
    rows[target := if target in rows then row.(status := KeptStatus(rows[target].status, row.status)) else row]
  }

  /** INSERT ... ON CONFLICT (user_id, pdf_hash) DO NOTHING. */
  function InsertIgnore(rows: Rows, id: SessionId, row: Row): Rows {
    if KeyFree(rows, row.user, row.hash) then rows[id := row] else rows
  }

  predicate Owns(rows: Rows, user: UserId, id: SessionId) {
    id in rows && rows[id].user == user
  }

  /** UPDATE ... SET status WHERE id AND user_id. */
  function SetStatus(rows: Rows, user: UserId, id: SessionId, status: RowStatus): Rows {
    if Owns(rows, user, id) then rows[id := rows[id].(status := status)] else rows
  }

  /** DELETE ... WHERE id AND user_id. */
  function DeleteRow(rows: Rows, user: UserId, id: SessionId): Rows {
    if Owns(rows, user, id) then rows - {id} else rows
  }

  /** The user's rows that read as pending with a hash: the candidates of the self-heal. */
  function PendingHashes(rows: Rows, user: UserId): map<SessionId, Hash> {
    map id | id in rows && rows[id].user == user && rows[id].status == PENDING && rows[id].hash.Some?
      :: rows[id].hash.value
  }

  function Banked(pending: map<SessionId, Hash>, hashes: set<Hash>): set<SessionId> {
    set id | id in pending && pending[id] in hashes
  }

  /** UPDATE ... SET status = 'ready' WHERE user_id AND id = ANY(ids). */
  function Promote(rows: Rows, user: UserId, ids: set<SessionId>): Rows {
    map id | id in rows :: if id in ids && rows[id].user == user then rows[id].(status := READY) else rows[id]
  }

  /** A whole listing with both databases up and no other writer in between. */
  function Healed(rows: Rows, user: UserId, hashes: set<Hash>): Rows {
    Promote(rows, user, Banked(PendingHashes(rows, user), hashes))
  }

  /** The listing leaves no pending row of the user with a banked hash and touches nothing else. */
  lemma {:induction false} HealedExactly(rows: Rows, user: UserId, hashes: set<Hash>)
    ensures Healed(rows, user, hashes).Keys == rows.Keys
    ensures forall id | id in rows ::
              var row := rows[id];
              Healed(rows, user, hashes)[id] ==
              if row.user == user && row.status == PENDING && row.hash.Some? && row.hash.value in hashes
              then row.(status := READY) else row
    ensures Banked(PendingHashes(Healed(rows, user, hashes), user), hashes) == {}
  {
  }

  lemma {:induction false} HealIdempotent(rows: Rows, user: UserId, hashes: set<Hash>)
    ensures Healed(Healed(rows, user, hashes), user, hashes) == Healed(rows, user, hashes)
  {
    HealedExactly(rows, user, hashes);
  }

  /** No statement of a user touches the rows of another, or makes a row. */
  lemma {:induction false} OthersRowsUntouched(rows: Rows, user: UserId, id: SessionId, status: RowStatus,
                                               ids: set<SessionId>)
    ensures forall x | x in rows && rows[x].user != user ::
              && x in SetStatus(rows, user, id, status) && SetStatus(rows, user, id, status)[x] == rows[x]
              && x in DeleteRow(rows, user, id) && DeleteRow(rows, user, id)[x] == rows[x]
              && x in Promote(rows, user, ids) && Promote(rows, user, ids)[x] == rows[x]
    ensures SetStatus(rows, user, id, status).Keys == rows.Keys && Promote(rows, user, ids).Keys == rows.Keys
    ensures DeleteRow(rows, user, id).Keys <= rows.Keys
  {
  }

  /** Of the user's own rows, exactly the one named is updated or deleted. */
  lemma {:induction false} OwnRowOnly(rows: Rows, user: UserId, id: SessionId, status: RowStatus, x: SessionId)
    requires x in rows && rows[x].user == user
    ensures SetStatus(rows, user, id, status)[x] == if x == id then rows[x].(status := status) else rows[x]
    ensures x in DeleteRow(rows, user, id) <==> x != id
    ensures x != id ==> DeleteRow(rows, user, id)[x] == rows[x]
  {
  }

  /** An upsert takes the metadata offered, and the status unless the row is ready or failed already. */
  lemma {:induction false} UpsertTakesOver(rows: Rows, target: SessionId, row: Row)
    ensures var after := Upsert(rows, target, row)[target];
            && after.user == row.user && after.hash == row.hash && after.meta == row.meta
            && (target !in rows || rows[target].status == PENDING ==> after.status == row.status)
            && (target in rows && rows[target].status != PENDING ==> after.status == rows[target].status)
    ensures forall id | id in rows && id != target :: Upsert(rows, target, row)[id] == rows[id]
  {
  }
}
