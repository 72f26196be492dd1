/** What every reachable state of the three stores keeps. */
module ProtocolInvariants {
  import opened Wrappers
  import opened StudyTypes
  import opened UserRows
  import opened Protocol

  // ------------------------------------------------ one session in all stores

  /** Everything the stores and the tasks hold under one id. */
  datatype View = View(rec: Option<Record>, row: Option<Row>, task: Option<Task>, origin: Option<Origin>)

  function Lookup<T>(m: map<SessionId, T>, id: SessionId): Option<T> {
    if id in m then Some(m[id]) else None
  }

  function ViewOf(s: State, id: SessionId): View {
    View(Lookup(s.store, id), Lookup(s.rows, id), Lookup(s.tasks, id), Lookup(s.issued, id))
  }

  predicate IssuedFor(v: View, user: Option<UserId>, hash: Option<Hash>) {
    v.origin == Some(Origin(user, hash))
  }

  predicate IsRunning(v: View) {
    v.task.Some? && v.task.value.Running?
  }

  /** Record, row and task of an id all carry the owner and the document it was issued for. */
  predicate OriginsAgree(v: View) {
    && (v.rec.Some? ==> IssuedFor(v, v.rec.value.user, Some(v.rec.value.hash)))
    && (v.row.Some? ==> IssuedFor(v, Some(v.row.value.user), v.row.value.hash))
    && (IsRunning(v) ==> IssuedFor(v, v.task.value.rec.user, Some(v.task.value.rec.hash)))
  }

  predicate PayloadOf(hash: Hash, payload: Payload) {
    match payload
    case Nothing => true
    case Parsed(doc) => doc.hash == hash
    case Study(content) => content.source.hash == hash && content.source.hasText
  }

  predicate RecordSound(rec: Record) {
    PayloadOf(rec.hash, rec.payload) && (rec.status == Complete ==> rec.payload.Study? && rec.progress == 100)
  }

  predicate PcSound(rec: Record, pc: Pc) {
    match pc
    case Work(_) => rec.payload.Parsed? && rec.payload.doc.hasText
    case Finish(content, _) => PayloadOf(rec.hash, Study(content))
    case FinishSync(content, _) => PayloadOf(rec.hash, Study(content))
    case Rollback(content, _) => PayloadOf(rec.hash, Study(content))
    case SaveBank(content) => PayloadOf(rec.hash, Study(content))
    case _ => true
  }

  /** What record and generation hold comes from the document the id was issued for. */
  predicate SoundContent(v: View) {
    && (v.rec.Some? ==> RecordSound(v.rec.value))
    && (IsRunning(v) ==> RecordSound(v.task.value.rec) && PcSound(v.task.value.rec, v.task.value.pc))
  }

  predicate IsComplete(v: View) {
    v.rec.Some? && v.rec.value.status == Complete
  }

  /** Only the last legs of its own task can see a record complete. */
  predicate CompleteIsLate(v: View) {
    IsComplete(v) && v.task.Some? ==>
      v.task.value.Running? &&
      (v.task.value.pc.FinishSync? || v.task.value.pc.Rollback? || v.task.value.pc.SaveBank?)
  }

  /** On the legs that write an outcome the record no longer reads processing. */
  predicate LateIsDecided(v: View) {
    v.rec.Some? && IsRunning(v) && Outcome(v.task.value.pc) ==> v.rec.value.status != Processing
  }

  predicate Outcome(pc: Pc) {
    pc.FailSync? || pc.FinishSync? || pc.Rollback? || pc.SaveBank?
  }

  predicate SessionInv(v: View) {
    OriginsAgree(v) && SoundContent(v) && CompleteIsLate(v) && LateIsDecided(v)
  }

  // ---------------------------------------------------------- the whole state

  predicate UploadIssued(issued: map<SessionId, Origin>, up: Upload) {
    up.id in issued && issued[up.id] == Origin(up.user, Some(up.doc.hash))
  }

  predicate HealIssued(issued: map<SessionId, Origin>, bank: map<Hash, Content>, heal: Heal) {
    && (forall id | id in heal.pending :: id in issued && issued[id].hash == Some(heal.pending[id]))
    && (heal.ready.Some? ==>
          forall id | id in heal.ready.value :: id in heal.pending && heal.pending[id] in bank)
  }

  predicate QueuesIssued(s: State) {
    && (forall up | up in s.uploads :: UploadIssued(s.issued, up))
    && (forall heal | heal in s.heals :: HealIssued(s.issued, s.bank, heal))
  }

  predicate BankSound(bank: map<Hash, Content>) {
    forall hash | hash in bank :: PayloadOf(hash, Study(bank[hash]))
  }

  ghost predicate Sessions(s: State) {
    forall id :: SessionInv(ViewOf(s, id))
  }

  ghost predicate Inv(s: State) {
    Sessions(s) && UniqueKeys(s.rows) && QueuesIssued(s) && BankSound(s.bank)
  }

  // ------------------------------------------------------------ table lemmas

  lemma {:induction false} UpsertKeeps(rows: Rows, offered: SessionId, target: SessionId, row: Row)
    requires UniqueKeys(rows) && offered !in rows && row.hash.Some?
    requires UpsertTarget(rows, offered, row.user, row.hash, target)
    ensures var after := Upsert(rows, target, row);
            && UniqueKeys(after)
            && after.Keys == rows.Keys + {target}
            && after[target].user == row.user && after[target].hash == row.hash
            && (target in rows ==> after[target].status == KeptStatus(rows[target].status, row.status)
                                   && rows[target].user == row.user && rows[target].hash == row.hash)
            && forall id | id in rows && id != target :: after[id] == rows[id]
  {
    var after := Upsert(rows, target, row);
    forall a, b | a in after && b in after && SameKey(after[a], after[b].user, after[b].hash) ensures a == b {
      if a != target && b != target {
        assert SameKey(rows[a], rows[b].user, rows[b].hash);
      } else if target in rows {
        assert SameKey(rows[a], rows[b].user, rows[b].hash);
      }
    }
  }

  lemma {:induction false} InsertKeeps(rows: Rows, id: SessionId, row: Row)
    requires UniqueKeys(rows) && id !in rows
    ensures UniqueKeys(InsertIgnore(rows, id, row))
  {
    var after := InsertIgnore(rows, id, row);
    forall a, b | a in after && b in after && SameKey(after[a], after[b].user, after[b].hash) ensures a == b {
      if a in rows && b in rows {
        assert SameKey(rows[a], rows[b].user, rows[b].hash);
      }
    }
  }

  /** Changing statuses only keeps the keys unique. */
  lemma {:induction false} StatusKeepsKeys(rows: Rows, after: Rows)
    requires UniqueKeys(rows)
    requires forall id | id in after :: id in rows && after[id].user == rows[id].user && after[id].hash == rows[id].hash
    ensures UniqueKeys(after)
  {
    forall a, b | a in after && b in after && SameKey(after[a], after[b].user, after[b].hash) ensures a == b {
      assert SameKey(rows[a], rows[b].user, rows[b].hash);
    }
  }

  // ------------------------------------------------------------- step lemmas

  /** More ids, a larger bank and shorter queues keep what waits in the queues sound. */
  lemma {:induction false} QueuesKeep(s: State, t: State)
    requires QueuesIssued(s)
    requires s.issued.Keys <= t.issued.Keys && forall id | id in s.issued :: t.issued[id] == s.issued[id]
    requires s.bank.Keys <= t.bank.Keys && t.uploads <= s.uploads && t.heals <= s.heals
    ensures QueuesIssued(t)
  {
    forall up | up in t.uploads ensures UploadIssued(t.issued, up) {
      assert up in s.uploads;
    }
    forall heal | heal in t.heals ensures HealIssued(t.issued, t.bank, heal) {
      assert heal in s.heals;
    }
  }

  /** A step that touches one session, whose view stays sound, keeps everything. */
  lemma {:induction false} OneSession(s: State, t: State, id: SessionId)
    requires Inv(s) && SessionInv(ViewOf(t, id))
    requires forall x | x != id :: ViewOf(t, x) == ViewOf(s, x)
    requires UniqueKeys(t.rows) && BankSound(t.bank) && s.bank.Keys <= t.bank.Keys
    requires s.issued.Keys <= t.issued.Keys && forall id | id in s.issued :: t.issued[id] == s.issued[id]
    requires t.uploads <= s.uploads && t.heals <= s.heals
    ensures Inv(t)
  {
    forall x ensures SessionInv(ViewOf(t, x)) {
      assert SessionInv(ViewOf(s, x));
    }
    QueuesKeep(s, t);
  }

  /** Changed rows whose sessions stay sound, with freshly issued ids and the other stores untouched. */
  lemma {:induction false} RowsChange(s: State, rows: Rows, issued: map<SessionId, Origin>)
    requires Inv(s) && UniqueKeys(rows)
    requires s.issued.Keys <= issued.Keys && forall id | id in s.issued :: issued[id] == s.issued[id]
    requires forall id :: SessionInv(ViewOf(s, id).(row := Lookup(rows, id), origin := Lookup(issued, id)))
    ensures Inv(s.(rows := rows, issued := issued))
  {
    var t := s.(rows := rows, issued := issued);
    forall id ensures SessionInv(ViewOf(t, id)) {
      assert ViewOf(t, id) == ViewOf(s, id).(row := Lookup(rows, id), origin := Lookup(issued, id));
    }
    QueuesKeep(s, t);
  }

  lemma {:induction false} FreshId(s: State, id: SessionId)
    requires Sessions(s) && id !in s.issued
    ensures id !in s.rows && id !in s.store && !Runs(s, id)
  {
    assert SessionInv(ViewOf(s, id));
  }

  /** The upsert's row carries the origin its id was issued for. */
  lemma {:induction false} UploadedSession(s: State, user: UserId, doc: Document, meta: Meta,
                                           offered: SessionId, target: SessionId, id: SessionId)
    requires Inv(s) && offered !in s.issued && UpsertTarget(s.rows, offered, user, Some(doc.hash), target)
    ensures var rows := Upsert(s.rows, target, Row(user, Some(doc.hash), PENDING, meta));
            var issued := s.issued[offered := Origin(Some(user), Some(doc.hash))];
            && SessionInv(ViewOf(s, id).(row := Lookup(rows, id), origin := Lookup(issued, id)))
            && target in issued && issued[target] == Origin(Some(user), Some(doc.hash))
  {
    FreshId(s, offered);
    assert SessionInv(ViewOf(s, id));
    assert SessionInv(ViewOf(s, target));
  }

  lemma {:induction false} UploadedRowsKeep(s: State, uploader: Option<UserId>, doc: Document, meta: Meta,
                                            offered: SessionId, target: SessionId, fault: Fault)
    requires Inv(s) && Enabled(s, UploadRow(uploader, doc, meta, offered, target, fault))
    ensures var t := DoUploadRow(s, uploader, doc, meta, offered, target, fault);
            && Inv(s.(rows := t.rows, issued := t.issued))
            && UploadIssued(t.issued, Upload(UploadId(uploader, offered, target, fault), uploader, doc))
  {
    var t := DoUploadRow(s, uploader, doc, meta, offered, target, fault);
    FreshId(s, offered);
    if uploader.Some? {
      UpsertKeeps(s.rows, offered, target, Row(uploader.value, Some(doc.hash), PENDING, meta));
      UploadedSession(s, uploader.value, doc, meta, offered, target, offered);
    }
    forall id ensures SessionInv(ViewOf(s, id).(row := Lookup(t.rows, id), origin := Lookup(t.issued, id))) {
      assert SessionInv(ViewOf(s, id));
      if uploader.Some? && fault != Lost {
        UploadedSession(s, uploader.value, doc, meta, offered, target, id);
      }
    }
    RowsChange(s, t.rows, t.issued);
  }

  lemma {:induction false} UploadRowKeeps(s: State, uploader: Option<UserId>, doc: Document, meta: Meta,
                                          offered: SessionId, target: SessionId, fault: Fault)
    requires Inv(s) && Enabled(s, UploadRow(uploader, doc, meta, offered, target, fault))
    ensures Inv(DoUploadRow(s, uploader, doc, meta, offered, target, fault))
  {
    var t := DoUploadRow(s, uploader, doc, meta, offered, target, fault);
    UploadedRowsKeep(s, uploader, doc, meta, offered, target, fault);
    var m := s.(rows := t.rows, issued := t.issued);
    forall id ensures SessionInv(ViewOf(t, id)) {
      assert ViewOf(t, id) == ViewOf(m, id);
    }
    forall up | up in t.uploads ensures UploadIssued(t.issued, up) {
      assert up in m.uploads || up == Upload(UploadId(uploader, offered, target, fault), uploader, doc);
    }
  }

  lemma {:induction false} UploadSaveKeeps(s: State, up: Upload)
    requires Inv(s) && Enabled(s, UploadSave(up))
    ensures Inv(DoUploadSave(s, up))
  {
    var t := DoUploadSave(s, up);
    assert SessionInv(ViewOf(s, up.id));
    OneSession(s, t, up.id);
  }

  lemma {:induction false} StartKeeps(s: State, id: SessionId)
    requires Inv(s) && Enabled(s, StartGeneration(id))
    ensures Inv(Apply(s, StartGeneration(id)))
  {
    var t := Apply(s, StartGeneration(id));
    assert SessionInv(ViewOf(s, id));
    OneSession(s, t, id);
  }

  lemma {:induction false} TaskReadKeeps(s: State, id: SessionId)
    requires Inv(s) && Enabled(s, TaskRead(id))
    ensures Inv(DoTaskRead(s, id))
  {
    assert SessionInv(ViewOf(s, id));
    OneSession(s, DoTaskRead(s, id), id);
  }

  /** The view of a running task's session after its step. */
  function Settled(v: View, rec: Option<Record>, row: Option<Row>, next: Option<Pc>): View
    requires IsRunning(v)
  {
    v.(rec := rec, row := row,
       task := match next case None => None case Some(pc) => Some(Running(v.task.value.rec, pc)))
  }

  lemma {:induction false} SettleKeeps(s: State, id: SessionId, store: map<SessionId, Record>, rows: Rows,
                                       bank: map<Hash, Content>, next: Option<Pc>)
    requires Inv(s) && Runs(s, id)
    requires SessionInv(Settled(ViewOf(s, id), Lookup(store, id), Lookup(rows, id), next))
    requires forall x | x != id :: Lookup(store, x) == Lookup(s.store, x) && Lookup(rows, x) == Lookup(s.rows, x)
    requires UniqueKeys(rows) && BankSound(bank) && s.bank.Keys <= bank.Keys
    ensures Inv(Settle(s, id, store, rows, bank, next))
  {
    var t := Settle(s, id, store, rows, bank, next);
    assert ViewOf(t, id) == Settled(ViewOf(s, id), Lookup(store, id), Lookup(rows, id), next);
    OneSession(s, t, id);
  }

  lemma {:induction false} TaskCacheKeeps(s: State, id: SessionId, fault: Fault)
    requires Inv(s) && Enabled(s, TaskCache(id, fault))
    ensures Inv(DoTaskCache(s, id, fault))
  {
    assert SessionInv(ViewOf(s, id));
    SettleKeeps(s, id, s.store, s.rows, s.bank, Some(DoTaskCache(s, id, fault).tasks[id].pc));
  }

  lemma {:induction false} TaskWorkKeeps(s: State, id: SessionId, succeeds: bool, answer: nat)
    requires Inv(s) && Enabled(s, TaskWork(id, succeeds, answer))
    ensures Inv(DoTaskWork(s, id, succeeds, answer))
  {
    assert SessionInv(ViewOf(s, id));
    SettleKeeps(s, id, DoTaskWork(s, id, succeeds, answer).store, s.rows, s.bank,
                Some(WorkNext(s.tasks[id].rec, s.tasks[id].pc.stage, succeeds, answer)));
  }

  lemma {:induction false} TaskFailKeeps(s: State, id: SessionId)
    requires Inv(s) && Enabled(s, TaskFail(id))
    ensures Inv(DoTaskFail(s, id))
  {
    assert SessionInv(ViewOf(s, id));
    SettleKeeps(s, id, DoTaskFail(s, id).store, s.rows, s.bank,
                if s.tasks[id].rec.user.Some? then Some(FailSync) else None);
  }

  lemma {:induction false} TaskFailSyncKeeps(s: State, id: SessionId, fault: Fault)
    requires Inv(s) && Enabled(s, TaskFailSync(id, fault))
    ensures Inv(DoTaskFailSync(s, id, fault))
  {
    var rows := DoTaskFailSync(s, id, fault).rows;
    assert SessionInv(ViewOf(s, id));
    StatusKeepsKeys(s.rows, rows);
    SettleKeeps(s, id, s.store, rows, s.bank, None);
  }

  lemma {:induction false} TaskFinishKeeps(s: State, id: SessionId)
    requires Inv(s) && Enabled(s, TaskFinish(id))
    ensures Inv(DoTaskFinish(s, id))
  {
    var t := DoTaskFinish(s, id);
    assert SessionInv(ViewOf(s, id));
    SettleKeeps(s, id, t.store, s.rows, s.bank, Some(t.tasks[id].pc));
  }

  lemma {:induction false} TaskFinishSyncKeeps(s: State, id: SessionId, fault: Fault)
    requires Inv(s) && Enabled(s, TaskFinishSync(id, fault))
    ensures Inv(DoTaskFinishSync(s, id, fault))
  {
    var pc, rows := s.tasks[id].pc, DoTaskFinishSync(s, id, fault).rows;
    assert SessionInv(ViewOf(s, id));
    StatusKeepsKeys(s.rows, rows);
    SettleKeeps(s, id, s.store, rows, s.bank,
                if Synced(s, s.tasks[id].rec.user, id, fault) then AfterFinish(pc.content, pc.generated)
                else Some(Rollback(pc.content, pc.generated)));
  }

  lemma {:induction false} TaskRollbackKeeps(s: State, id: SessionId)
    requires Inv(s) && Enabled(s, TaskRollback(id))
    ensures Inv(DoTaskRollback(s, id))
  {
    var pc := s.tasks[id].pc;
    assert SessionInv(ViewOf(s, id));
    SettleKeeps(s, id, DoTaskRollback(s, id).store, s.rows, s.bank, AfterFinish(pc.content, pc.generated));
  }

  lemma {:induction false} TaskSaveBankKeeps(s: State, id: SessionId, fault: Fault)
    requires Inv(s) && Enabled(s, TaskSaveBank(id, fault))
    ensures Inv(DoTaskSaveBank(s, id, fault))
  {
    assert SessionInv(ViewOf(s, id));
    SettleKeeps(s, id, s.store, s.rows, DoTaskSaveBank(s, id, fault).bank, None);
  }

  lemma {:induction false} TaskDieKeeps(s: State, id: SessionId)
    requires Inv(s) && Enabled(s, TaskDie(id))
    ensures Inv(DoTaskDie(s, id))
  {
    assert SessionInv(ViewOf(s, id));
    OneSession(s, DoTaskDie(s, id), id);
  }

  lemma {:induction false} DeleteUserRowKeeps(s: State, user: UserId, id: SessionId, fault: Fault)
    requires Inv(s)
    ensures Inv(DoDeleteUserRow(s, user, id, fault))
  {
    var t := DoDeleteUserRow(s, user, id, fault);
    assert SessionInv(ViewOf(s, id));
    if t != s {
      assert t.rows == s.rows - {id};
      StatusKeepsKeys(s.rows, t.rows);
      OneSession(s, t, id);
    }
  }

  lemma {:induction false} DeleteRecordKeeps(s: State, id: SessionId, done: bool)
    requires Inv(s)
    ensures Inv(DoDeleteRecord(s, id, done))
  {
    var t := DoDeleteRecord(s, id, done);
    assert SessionInv(ViewOf(s, id));
    OneSession(s, t, id);
  }

  lemma {:induction false} ForgetKeeps(s: State, id: SessionId)
    requires Inv(s)
    ensures Inv(DoForget(s, id))
  {
    var t := DoForget(s, id);
    assert SessionInv(ViewOf(s, id));
    OneSession(s, t, id);
  }

  lemma {:induction false} InsertRowKeeps(s: State, id: SessionId, row: Row)
    requires Inv(s) && Enabled(s, InsertRow(id, row))
    ensures Inv(DoInsertRow(s, id, row))
  {
    var t := DoInsertRow(s, id, row);
    FreshId(s, id);
    InsertKeeps(s.rows, id, row);
    forall x ensures SessionInv(ViewOf(s, x).(row := Lookup(t.rows, x), origin := Lookup(t.issued, x))) {
      assert SessionInv(ViewOf(s, x));
    }
    RowsChange(s, t.rows, t.issued);
  }

  lemma {:induction false} HealReadKeeps(s: State, user: UserId)
    requires Inv(s)
    ensures Inv(DoHealRead(s, user))
  {
    var t := DoHealRead(s, user);
    OthersKeepAll(s, t);
    var pending := PendingHashes(s.rows, user);
    forall id | id in pending ensures id in s.issued && s.issued[id].hash == Some(pending[id]) {
      assert SessionInv(ViewOf(s, id));
    }
    forall heal | heal in t.heals ensures HealIssued(t.issued, t.bank, heal) {
      assert heal in s.heals || heal == Heal(user, pending, None);
    }
  }

  lemma {:induction false} OthersKeepAll(s: State, t: State)
    requires Sessions(s) && forall x :: ViewOf(t, x) == ViewOf(s, x)
    ensures Sessions(t)
  {
    forall x ensures SessionInv(ViewOf(t, x)) {
      assert SessionInv(ViewOf(s, x));
    }
  }

  lemma {:induction false} HealBankKeeps(s: State, heal: Heal, fault: Fault)
    requires Inv(s) && Enabled(s, HealBank(heal, fault))
    ensures Inv(DoHealBank(s, heal, fault))
  {
    var t := DoHealBank(s, heal, fault);
    OthersKeepAll(s, t);
    forall h | h in t.heals ensures HealIssued(t.issued, t.bank, h) {
      assert h in s.heals || h == heal.(ready := Some(Banked(heal.pending, s.bank.Keys)));
      assert HealIssued(s.issued, s.bank, heal);
    }
  }

  lemma {:induction false} PromoteSession(v: View, rows: Rows, id: SessionId, user: UserId, ids: set<SessionId>)
    requires SessionInv(v) && v.row == Lookup(rows, id)
    ensures SessionInv(v.(row := Lookup(Promote(rows, user, ids), id)))
  {
  }

  lemma {:induction false} HealWriteKeeps(s: State, heal: Heal, fault: Fault)
    requires Inv(s) && Enabled(s, HealWrite(heal, fault))
    ensures Inv(DoHealWrite(s, heal, fault))
  {
    var t := s.(heals := s.heals - multiset{heal});
    OneSession(s, t, 0) by {
      assert SessionInv(ViewOf(s, 0));
      assert ViewOf(t, 0) == ViewOf(s, 0);
    }
    if fault != Lost {
      var rows := Promote(s.rows, heal.user, heal.ready.value);
      StatusKeepsKeys(s.rows, rows);
      forall id ensures SessionInv(ViewOf(t, id).(row := Lookup(rows, id), origin := Lookup(t.issued, id))) {
        PromoteSession(ViewOf(t, id), s.rows, id, heal.user, heal.ready.value);
      }
      RowsChange(t, rows, t.issued);
    }
  }

  lemma {:induction false} StepKeeps(s: State, step: Step)
    requires Inv(s) && Enabled(s, step)
    ensures Inv(Apply(s, step))
  {
    match step
    case UploadRow(user, doc, meta, offered, target, fault) =>
      UploadRowKeeps(s, user, doc, meta, offered, target, fault);
    case UploadSave(upload) => UploadSaveKeeps(s, upload);
    case StartGeneration(id) => StartKeeps(s, id);
    case TaskRead(id) => TaskReadKeeps(s, id);
    case TaskCache(id, fault) => TaskCacheKeeps(s, id, fault);
    case TaskWork(id, succeeds, answer) => TaskWorkKeeps(s, id, succeeds, answer);
    case TaskFail(id) => TaskFailKeeps(s, id);
    case TaskFailSync(id, fault) => TaskFailSyncKeeps(s, id, fault);
    case TaskFinish(id) => TaskFinishKeeps(s, id);
    case TaskFinishSync(id, fault) => TaskFinishSyncKeeps(s, id, fault);
    case TaskRollback(id) => TaskRollbackKeeps(s, id);
    case TaskSaveBank(id, fault) => TaskSaveBankKeeps(s, id, fault);
    case TaskDie(id) => TaskDieKeeps(s, id);
    case DeleteUserRow(user, id, fault) => DeleteUserRowKeeps(s, user, id, fault);
    case DeleteRecord(id, done) => DeleteRecordKeeps(s, id, done);
    case Forget(id) => ForgetKeeps(s, id);
    case InsertRow(id, row) => InsertRowKeeps(s, id, row);
    case HealRead(user) => HealReadKeeps(s, user);
    case HealBank(heal, fault) => HealBankKeeps(s, heal, fault);
    case HealWrite(heal, fault) => HealWriteKeeps(s, heal, fault);
  }

  lemma {:induction false} RunKeeps(s: State, steps: seq<Step>)
    requires Inv(s) && Legal(s, steps)
    ensures Inv(Exec(s, steps))
    decreases |steps|
  {
    if steps != [] {
      StepKeeps(s, steps[0]);
      RunKeeps(Apply(s, steps[0]), steps[1..]);
    }
  }

  /** Every run over the three stores keeps origins, keys and provenance. */
  lemma {:induction false} AlwaysInv(s: State)
    requires Reachable(s)
    ensures Inv(s)
  {
    var steps :| Legal(INIT, steps) && Exec(INIT, steps) == s;
    RunKeeps(INIT, steps);
  }
}
