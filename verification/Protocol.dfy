/**
 * Upload, generation, deletion, listing and sync as interleaved steps over the three stores.
 * Every step ends where the Python code awaits; a Fault says how the step's database statement went.
 */
module Protocol {
  import opened Wrappers
  import opened StudyTypes
  import opened UserRows

  // ------------------------------------------------------------------ state

  /** Where a running _run_generation task stands; each value names what it does next. */
  datatype Pc =
    | Cache
    | Work(stage: nat)
    | Fail
    | FailSync
    | Finish(content: Content, generated: bool)
    | FinishSync(content: Content, generated: bool)
    | Rollback(content: Content, generated: bool)
    | SaveBank(content: Content)

  /** rec is the record as the generation read it first. */
  datatype Task = Scheduled | Running(rec: Record, pc: Pc)

  /** An upload whose table step is over and whose record is not saved yet. */
  datatype Upload = Upload(id: SessionId, user: Option<UserId>, doc: Document)

  /** A listing between its read and its update; ready is None until the bank was asked. */
  datatype Heal = Heal(user: UserId, pending: map<SessionId, Hash>, ready: Option<set<SessionId>>)

  /** The owner and document an id was issued for. */
  datatype Origin = Origin(user: Option<UserId>, hash: Option<Hash>)

  /**
   * deletes holds the sessions whose row is gone while the record is still to be dropped. issued is
   * bookkeeping of the model: what every id was issued for.
   */
  datatype State = State(
    store: map<SessionId, Record>,
    rows: Rows,
    bank: map<Hash, Content>,
    tasks: map<SessionId, Task>,
    uploads: multiset<Upload>,
    deletes: set<SessionId>,
    heals: multiset<Heal>,
    issued: map<SessionId, Origin>)

  const INIT := State(map[], map[], map[], map[], multiset{}, {}, multiset{}, map[])

  // ------------------------------------------------------------------ steps

  datatype Step =
    | UploadRow(uploader: Option<UserId>, doc: Document, meta: Meta,
                offered: SessionId, target: SessionId, fault: Fault)
    | UploadSave(upload: Upload)
    | StartGeneration(id: SessionId)
    | TaskRead(id: SessionId)
    | TaskCache(id: SessionId, fault: Fault)
    | TaskWork(id: SessionId, succeeds: bool, answer: nat)
    | TaskFail(id: SessionId)
    | TaskFailSync(id: SessionId, fault: Fault)
    | TaskFinish(id: SessionId)
    | TaskFinishSync(id: SessionId, fault: Fault)
    | TaskRollback(id: SessionId)
    | TaskSaveBank(id: SessionId, fault: Fault)
    | TaskDie(id: SessionId)
    | DeleteUserRow(user: UserId, id: SessionId, fault: Fault)
    | DeleteRecord(id: SessionId, done: bool)
    | Forget(id: SessionId)
    | InsertRow(id: SessionId, row: Row)
    | HealRead(user: UserId)
    | HealBank(heal: Heal, fault: Fault)
    | HealWrite(heal: Heal, fault: Fault)

  /** The progress marks written before the prompts, between the stages and after the last one. */
  const PROGRESS: seq<nat> := [5, 10, 40, 70, 85]

  predicate At(s: State, id: SessionId, pc: Pc) {
    id in s.tasks && s.tasks[id].Running? && s.tasks[id].pc == pc
  }

  predicate Runs(s: State, id: SessionId) {
    id in s.tasks && s.tasks[id].Running?
  }

  /** When a step can happen. Server-made ids are fresh, and no second task starts beside a first. */
  predicate Enabled(s: State, step: Step) {
    match step
    case UploadRow(user, doc, meta, offered, target, fault) =>
      offered !in s.issued && (user.Some? ==> UpsertTarget(s.rows, offered, user.value, Some(doc.hash), target))
    case UploadSave(upload) => upload in s.uploads
    case StartGeneration(id) =>
      id in s.store && s.store[id].status != Complete && s.store[id].status != Processing && id !in s.tasks
    case TaskRead(id) => id in s.tasks && s.tasks[id].Scheduled?
    case TaskCache(id, _) => At(s, id, Cache)
    case TaskWork(id, succeeds, _) =>
      Runs(s, id) && s.tasks[id].pc.Work? && (!succeeds ==> s.tasks[id].pc.stage >= 2)
    case TaskFail(id) => At(s, id, Fail)
    case TaskFailSync(id, _) => At(s, id, FailSync)
    case TaskFinish(id) => Runs(s, id) && s.tasks[id].pc.Finish?
    case TaskFinishSync(id, _) => Runs(s, id) && s.tasks[id].pc.FinishSync?
    case TaskRollback(id) => Runs(s, id) && s.tasks[id].pc.Rollback?
    case TaskSaveBank(id, _) => Runs(s, id) && s.tasks[id].pc.SaveBank?
    case TaskDie(id) => id in s.tasks
    case DeleteUserRow(_, _, _) => true
    case DeleteRecord(id, _) => id in s.deletes
    case Forget(_) => true
    case InsertRow(id, _) => id !in s.issued
    case HealRead(_) => true
    case HealBank(heal, _) => heal in s.heals && heal.ready.None?
    case HealWrite(heal, _) => heal in s.heals && heal.ready.Some?
  }

  /** update_status: nothing happens to an unknown session; payload None keeps what is there. */
  function UpdateStatus(store: map<SessionId, Record>, id: SessionId, status: Status, progress: nat,
                        payload: Option<Payload>): map<SessionId, Record> {
    if id !in store then store
    else
      store[id := store[id].(status := status, progress := progress,
                             payload := if payload.Some? then payload.value else store[id].payload)]
  }

  /** A running task's step: new contents of the stores, and where it goes next (None: it ends). */
  function Settle(s: State, id: SessionId, store: map<SessionId, Record>, rows: Rows, bank: map<Hash, Content>,
                  next: Option<Pc>): State
    requires Runs(s, id)
  {
    s.(store := store, rows := rows, bank := bank,
       tasks := match next
                case None => s.tasks - {id}
                case Some(pc) => s.tasks[id := Running(s.tasks[id].rec, pc)])
  }

  /** Without a cached result a generation works on the parsed text its record holds, or fails as empty. */
  function AfterMiss(payload: Payload): Pc {
    if payload.Parsed? && payload.doc.hasText then Work(0) else Fail
  }

  /** After finalising, only generated content goes on to the bank. */
  function AfterFinish(content: Content, generated: bool): Option<Pc> {
    if generated then Some(SaveBank(content)) else None
  }

  /** What the upsert of an upload leaves in the table. */
  function UploadedRows(rows: Rows, uploader: Option<UserId>, doc: Document, meta: Meta,
                        target: SessionId, fault: Fault): Rows {
    if uploader.None? || fault == Lost then rows
    else Upsert(rows, target, Row(uploader.value, Some(doc.hash), PENDING, meta))
  }

  /** The id the record is saved under: the row's when the upsert answered, else the offered one. */
  function UploadId(uploader: Option<UserId>, offered: SessionId, target: SessionId, fault: Fault): SessionId {
    if uploader.Some? && fault == Up then target else offered
  }

  function DoUploadRow(s: State, uploader: Option<UserId>, doc: Document, meta: Meta,
                       offered: SessionId, target: SessionId, fault: Fault): State {
    s.(rows := UploadedRows(s.rows, uploader, doc, meta, target, fault),
       uploads := s.uploads + multiset{Upload(UploadId(uploader, offered, target, fault), uploader, doc)},
       issued := s.issued[offered := Origin(uploader, Some(doc.hash))])
  }

  function DoUploadSave(s: State, up: Upload): State {
    s.(uploads := s.uploads - multiset{up},
       store := s.store[up.id := Record(up.user, up.doc.hash, Uploaded, 0, Parsed(up.doc))])
  }

  function DoTaskRead(s: State, id: SessionId): State {
    s.(tasks := if id in s.store then s.tasks[id := Running(s.store[id], Cache)] else s.tasks - {id})
  }

  function DoTaskCache(s: State, id: SessionId, fault: Fault): State
    requires Runs(s, id)
  {
    var rec := s.tasks[id].rec;
    var next := if rec.hash in s.bank && fault == Up then Finish(s.bank[rec.hash], false)
                else AfterMiss(rec.payload);
    Settle(s, id, s.store, s.rows, s.bank, Some(next))
  }

  /** Five progress marks, then content generated from the parsed text read at the start. */
  function WorkNext(rec: Record, stage: nat, succeeds: bool, answer: nat): Pc {
    if !succeeds || !rec.payload.Parsed? then Fail
    else if stage < |PROGRESS| then Work(stage + 1)
    else Finish(Content(rec.payload.doc, answer), true)
  }

  function DoTaskWork(s: State, id: SessionId, succeeds: bool, answer: nat): State
    requires Runs(s, id) && s.tasks[id].pc.Work?
  {
    var stage := s.tasks[id].pc.stage;
    var next := WorkNext(s.tasks[id].rec, stage, succeeds, answer);
    var store := if next.Work? && stage < |PROGRESS| then UpdateStatus(s.store, id, Processing, PROGRESS[stage], None)
                 else s.store;
    Settle(s, id, store, s.rows, s.bank, Some(next))
  }

  function DoTaskFail(s: State, id: SessionId): State
    requires Runs(s, id)
  {
    var store := UpdateStatus(s.store, id, Failed, 0, None);
    Settle(s, id, store, s.rows, s.bank, if s.tasks[id].rec.user.Some? then Some(FailSync) else None)
  }

  function DoTaskFailSync(s: State, id: SessionId, fault: Fault): State
    requires Runs(s, id)
  {
    var user := s.tasks[id].rec.user;
    var rows := if user.Some? && fault != Lost then SetStatus(s.rows, user.value, id, FAILED) else s.rows;
    Settle(s, id, s.store, rows, s.bank, None)
  }

  function DoTaskFinish(s: State, id: SessionId): State
    requires Runs(s, id) && s.tasks[id].pc.Finish?
  {
    var pc := s.tasks[id].pc;
    var store := UpdateStatus(s.store, id, Complete, 100, Some(Study(pc.content)));
    Settle(s, id, store, s.rows, s.bank, Some(FinishSync(pc.content, pc.generated)))
  }

  /** _sync_user_session_status: a guest needs no row; otherwise one row must match and the answer arrive. */
  predicate Synced(s: State, user: Option<UserId>, id: SessionId, fault: Fault) {
    user.None? || (fault == Up && Owns(s.rows, user.value, id))
  }

  function DoTaskFinishSync(s: State, id: SessionId, fault: Fault): State
    requires Runs(s, id) && s.tasks[id].pc.FinishSync?
  {
    var pc, user := s.tasks[id].pc, s.tasks[id].rec.user;
    var rows := if user.Some? && fault != Lost then SetStatus(s.rows, user.value, id, READY) else s.rows;
    Settle(s, id, s.store, rows, s.bank,
           if Synced(s, user, id, fault) then AfterFinish(pc.content, pc.generated)
           else Some(Rollback(pc.content, pc.generated)))
  }

  function DoTaskRollback(s: State, id: SessionId): State
    requires Runs(s, id) && s.tasks[id].pc.Rollback?
  {
    var pc := s.tasks[id].pc;
    var store := UpdateStatus(s.store, id, Failed, 0, Some(Study(pc.content)));
    Settle(s, id, store, s.rows, s.bank, AfterFinish(pc.content, pc.generated))
  }

  function DoTaskSaveBank(s: State, id: SessionId, fault: Fault): State
    requires Runs(s, id) && s.tasks[id].pc.SaveBank?
  {
    var hash := s.tasks[id].rec.hash;
    var bank := if fault == Lost || hash in s.bank then s.bank else s.bank[hash := s.tasks[id].pc.content];
    Settle(s, id, s.store, s.rows, bank, None)
  }

  /** Between marking a record complete and settling its row. */
  predicate Finishing(s: State, id: SessionId) {
    Runs(s, id) && (s.tasks[id].pc.FinishSync? || s.tasks[id].pc.Rollback?)
  }

  /** An exception that _run_generation does not catch, or the end of its process. */
  function DoTaskDie(s: State, id: SessionId): State {
    s.(tasks := s.tasks - {id})
  }

  function DoDeleteUserRow(s: State, user: UserId, id: SessionId, fault: Fault): State {
    if !Owns(s.rows, user, id) || fault == Lost then s
    else if fault == Up then s.(rows := DeleteRow(s.rows, user, id), deletes := s.deletes + {id})
    else s.(rows := DeleteRow(s.rows, user, id))
  }

  function DoDeleteRecord(s: State, id: SessionId, done: bool): State {
    var t := s.(deletes := s.deletes - {id});
    if done then t.(store := t.store - {id}) else t
  }

  function DoForget(s: State, id: SessionId): State {
    s.(store := s.store - {id})
  }

  function DoInsertRow(s: State, id: SessionId, row: Row): State {
    s.(rows := InsertIgnore(s.rows, id, row), issued := s.issued[id := Origin(Some(row.user), row.hash)])
  }

  function DoHealRead(s: State, user: UserId): State {
    s.(heals := s.heals + multiset{Heal(user, PendingHashes(s.rows, user), None)})
  }

  function DoHealBank(s: State, heal: Heal, fault: Fault): State {
    var t := s.(heals := s.heals - multiset{heal});
    if fault != Up then t
    else t.(heals := t.heals + multiset{heal.(ready := Some(Banked(heal.pending, s.bank.Keys)))})
  }

  function DoHealWrite(s: State, heal: Heal, fault: Fault): State
    requires heal.ready.Some?
  {
    var t := s.(heals := s.heals - multiset{heal});
    if fault == Lost then t else t.(rows := Promote(t.rows, heal.user, heal.ready.value))
  }

  function Apply(s: State, step: Step): State
    requires Enabled(s, step)
  {
    match step
    case UploadRow(user, doc, meta, offered, target, fault) => DoUploadRow(s, user, doc, meta, offered, target, fault)
    case UploadSave(upload) => DoUploadSave(s, upload)
    case StartGeneration(id) => s.(tasks := s.tasks[id := Scheduled])
    case TaskRead(id) => DoTaskRead(s, id)
    case TaskCache(id, fault) => DoTaskCache(s, id, fault)
    case TaskWork(id, succeeds, answer) => DoTaskWork(s, id, succeeds, answer)
    case TaskFail(id) => DoTaskFail(s, id)
    case TaskFailSync(id, fault) => DoTaskFailSync(s, id, fault)
    case TaskFinish(id) => DoTaskFinish(s, id)
    case TaskFinishSync(id, fault) => DoTaskFinishSync(s, id, fault)
    case TaskRollback(id) => DoTaskRollback(s, id)
    case TaskSaveBank(id, fault) => DoTaskSaveBank(s, id, fault)
    case TaskDie(id) => DoTaskDie(s, id)
    case DeleteUserRow(user, id, fault) => DoDeleteUserRow(s, user, id, fault)
    case DeleteRecord(id, done) => DoDeleteRecord(s, id, done)
    case Forget(id) => DoForget(s, id)
    case InsertRow(id, row) => DoInsertRow(s, id, row)
    case HealRead(user) => DoHealRead(s, user)
    case HealBank(heal, fault) => DoHealBank(s, heal, fault)
    case HealWrite(heal, fault) => DoHealWrite(s, heal, fault)
  }

  // ------------------------------------------------------------------- runs

  predicate Legal(s: State, steps: seq<Step>)
    decreases |steps|
  {
    steps == [] || (Enabled(s, steps[0]) && Legal(Apply(s, steps[0]), steps[1..]))
  }

  function Exec(s: State, steps: seq<Step>): State
    requires Legal(s, steps)
    decreases |steps|
  {
    if steps == [] then s else Exec(Apply(s, steps[0]), steps[1..])
  }

  ghost predicate Reachable(s: State) {
    exists steps: seq<Step> :: Legal(INIT, steps) && Exec(INIT, steps) == s
  }
}
