/** What a step leaves alone: the sessions that it does not move. */
module ProtocolFrames {
  import opened Wrappers
  import opened StudyTypes
  import opened UserRows
  import opened Protocol
  import opened ProtocolInvariants
  import opened ProtocolTheorems

  /** Whose generation a step moves, if any. */
  function Mover(step: Step): Option<SessionId> {
    match step
    case StartGeneration(id) => Some(id)
    case TaskRead(id) => Some(id)
    case TaskCache(id, _) => Some(id)
    case TaskWork(id, _, _) => Some(id)
    case TaskFail(id) => Some(id)
    case TaskFailSync(id, _) => Some(id)
    case TaskFinish(id) => Some(id)
    case TaskFinishSync(id, _) => Some(id)
    case TaskRollback(id) => Some(id)
    case TaskSaveBank(id, _) => Some(id)
    case TaskDie(id) => Some(id)
    case _ => None
  }

  /** The record of the session is written anew or dropped. */
  predicate Rewrites(step: Step, id: SessionId) {
    match step
    case UploadSave(up) => up.id == id
    case Forget(x) => x == id
    case DeleteRecord(x, done) => x == id && done
    case _ => false
  }

  predicate SameTask(s: State, t: State, id: SessionId) {
    Lookup(t.tasks, id) == Lookup(s.tasks, id)
  }

  predicate SameRecord(s: State, t: State, id: SessionId) {
    Lookup(t.store, id) == Lookup(s.store, id)
  }

  predicate SameSession(s: State, t: State, id: SessionId) {
    SameTask(s, t, id) && SameRecord(s, t, id)
  }

  lemma {:induction false} WorkElsewhere(s: State, step: Step, id: SessionId)
    requires Enabled(s, step) && WorksApart(step) && Mover(step) != Some(id)
    ensures SameSession(s, Apply(s, step), id)
  {
    match step
    case TaskCache(x, fault) => assert SameSession(s, DoTaskCache(s, x, fault), id);
    case TaskWork(x, succeeds, answer) => assert SameSession(s, DoTaskWork(s, x, succeeds, answer), id);
    case TaskFail(x) => assert SameSession(s, DoTaskFail(s, x), id);
    case TaskFinish(x) => assert SameSession(s, DoTaskFinish(s, x), id);
    case TaskRollback(x) => assert SameSession(s, DoTaskRollback(s, x), id);
    case TaskSaveBank(x, fault) => assert SameSession(s, DoTaskSaveBank(s, x, fault), id);
  }

  lemma {:induction false} SyncElsewhere(s: State, x: SessionId, fault: Fault, id: SessionId)
    requires x != id
    ensures Enabled(s, TaskFailSync(x, fault)) ==> SameSession(s, DoTaskFailSync(s, x, fault), id)
    ensures Enabled(s, TaskFinishSync(x, fault)) ==> SameSession(s, DoTaskFinishSync(s, x, fault), id)
  {
  }

  lemma {:induction false} RestElsewhere(s: State, step: Step, id: SessionId)
    requires Enabled(s, step) && !WorksApart(step) && Mover(step) != Some(id)
    ensures SameTask(s, Apply(s, step), id)
    ensures !Rewrites(step, id) ==> SameRecord(s, Apply(s, step), id)
  {
    match step
    case UploadSave(up) => assert SameTask(s, DoUploadSave(s, up), id)
      && (up.id != id ==> SameRecord(s, DoUploadSave(s, up), id));
    case Forget(x) => assert SameTask(s, DoForget(s, x), id) && (x != id ==> SameRecord(s, DoForget(s, x), id));
    case DeleteRecord(x, done) => assert SameTask(s, DoDeleteRecord(s, x, done), id);
    case TaskRead(x) => assert SameSession(s, DoTaskRead(s, x), id);
    case TaskFailSync(x, fault) => SyncElsewhere(s, x, fault, id);
    case TaskFinishSync(x, fault) => SyncElsewhere(s, x, fault, id);
    case TaskDie(x) => assert SameSession(s, DoTaskDie(s, x), id);
    case DeleteUserRow(u, x, fault) => assert SameSession(s, DoDeleteUserRow(s, u, x, fault), id);
    case _ =>
  }

  /** A step moves at most one generation, and writes the record of no other session but one it rewrites. */
  lemma {:induction false} Elsewhere(s: State, step: Step, id: SessionId)
    requires Enabled(s, step) && Mover(step) != Some(id)
    ensures SameTask(s, Apply(s, step), id)
    ensures !Rewrites(step, id) ==> SameRecord(s, Apply(s, step), id)
  {
    if WorksApart(step) {
      WorkElsewhere(s, step, id);
    } else {
      RestElsewhere(s, step, id);
    }
  }

  /** After such a step the record is gone, or reads uploaded. */
  lemma {:induction false} Rewritten(s: State, step: Step, id: SessionId)
    requires Enabled(s, step) && Rewrites(step, id)
    ensures id in Apply(s, step).store ==> step.UploadSave? && Apply(s, step).store[id].status == Uploaded
  {
    match step
    case UploadSave(up) => assert Apply(s, step) == DoUploadSave(s, up);
    case Forget(x) => assert Apply(s, step) == DoForget(s, x);
    case DeleteRecord(x, done) => assert Apply(s, step) == DoDeleteRecord(s, x, done);
  }

  /** The last legs of a generation, the only ones that can see a record complete. */
  predicate OnWay(s: State, id: SessionId) {
    Finishing(s, id) || (Runs(s, id) && s.tasks[id].pc.SaveBank?)
  }

  lemma {:induction false} CompleteIsOnWay(s: State, id: SessionId)
    requires Inv(s) && id in s.tasks && id in s.store && s.store[id].status == Complete
    ensures OnWay(s, id)
  {
    assert SessionInv(ViewOf(s, id));
  }

  lemma {:induction false} OwnRecord(s: State, id: SessionId)
    requires Inv(s) && Runs(s, id) && id in s.store
    ensures s.store[id].user == s.tasks[id].rec.user && s.store[id].hash == s.tasks[id].rec.hash
  {
    assert SessionInv(ViewOf(s, id));
  }

  // -------------------------------------------------------------------- rows

  /** The row is still there, its owner's, for its document, and ready if it was. */
  predicate RowStays(s: State, t: State, id: SessionId) {
    id in s.rows ==>
      && id in t.rows && t.rows[id].user == s.rows[id].user && t.rows[id].hash == s.rows[id].hash
      && (s.rows[id].status == READY ==> t.rows[id].status == READY)
  }

  lemma {:induction false} UploadStays(s: State, uploader: Option<UserId>, doc: Document, meta: Meta,
                                       offered: SessionId, target: SessionId, fault: Fault, id: SessionId)
    requires Inv(s) && Enabled(s, UploadRow(uploader, doc, meta, offered, target, fault))
    ensures RowStays(s, DoUploadRow(s, uploader, doc, meta, offered, target, fault), id)
  {
    FreshId(s, offered);
    if uploader.Some? {
      UpsertKeeps(s.rows, offered, target, Row(uploader.value, Some(doc.hash), PENDING, meta));
    }
  }

  lemma {:induction false} InsertStays(s: State, x: SessionId, row: Row, id: SessionId)
    requires Inv(s) && Enabled(s, InsertRow(x, row))
    ensures RowStays(s, DoInsertRow(s, x, row), id)
  {
    FreshId(s, x);
  }

  lemma {:induction false} StatementStays(s: State, step: Step, id: SessionId)
    requires Enabled(s, step) && Mover(step) != Some(id)
    ensures match step
            case TaskFailSync(x, fault) => RowStays(s, DoTaskFailSync(s, x, fault), id)
            case TaskFinishSync(x, fault) => RowStays(s, DoTaskFinishSync(s, x, fault), id)
            case DeleteUserRow(u, x, fault) => x != id ==> RowStays(s, DoDeleteUserRow(s, u, x, fault), id)
            case HealWrite(heal, fault) => RowStays(s, DoHealWrite(s, heal, fault), id)
            case _ => true
  {
  }

  /** Only the session's own generation and a delete of its row can take a row or its readiness away. */
  lemma {:induction false} RowElsewhere(s: State, step: Step, id: SessionId)
    requires Inv(s) && Enabled(s, step) && Mover(step) != Some(id)
    ensures (step.DeleteUserRow? && step.id == id) || RowStays(s, Apply(s, step), id)
  {
    match step
    case UploadRow(uploader, doc, meta, offered, target, fault) =>
      UploadStays(s, uploader, doc, meta, offered, target, fault, id);
    case InsertRow(x, row) => InsertStays(s, x, row, id);
    case TaskFailSync(x, fault) => StatementStays(s, step, id);
    case TaskFinishSync(x, fault) => StatementStays(s, step, id);
    case DeleteUserRow(u, x, fault) => StatementStays(s, step, id);
    case HealWrite(heal, fault) => StatementStays(s, step, id);
    case _ => PlainRows(s, step);
  }
}
