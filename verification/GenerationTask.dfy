/**
 * upload_pdf, _run_generation and delete_session as the statements they are, over the three stores.
 * Every call performs steps of the protocol: a Backend always stands in a reachable state.
 */
module GenerationTask {
  import opened Wrappers
  import opened StudyTypes
  import opened UserRows
  import opened Protocol
  import opened ProtocolTheorems

  /**
   * How the parts of one generation go that the code does not decide: the stage that raises, if any, and
   * whether its exception is one that no handler names.
   */
  datatype Luck = Luck(cache: Fault, failsAt: Option<nat>, escapes: bool, answer: nat, sync: Fault, bank: Fault)

  /** No stage raises before the second progress mark. */
  predicate Possible(luck: Luck) {
    luck.failsAt.Some? ==> luck.failsAt.value >= 2
  }

  // ------------------------------------------------------ what a whole run does

  predicate Hits(rec: Record, bank: map<Hash, Content>, luck: Luck) {
    rec.hash in bank && luck.cache == Up
  }

  predicate Works(rec: Record, luck: Luck) {
    rec.payload.Parsed? && rec.payload.doc.hasText && (luck.failsAt.Some? ==> luck.failsAt.value > |PROGRESS|)
  }

  /** The exception of a stage escapes: nothing that follows it happens. */
  predicate Escapes(rec: Record, bank: map<Hash, Content>, luck: Luck) {
    && !Hits(rec, bank, luck) && rec.payload.Parsed? && rec.payload.doc.hasText
    && luck.escapes && luck.failsAt.Some? && 2 <= luck.failsAt.value <= |PROGRESS|
  }

  /** The content a run ends with, if it has one: the bank's, or a new one. */
  function Delivered(rec: Record, bank: map<Hash, Content>, luck: Luck): Option<Content> {
    if Hits(rec, bank, luck) then Some(bank[rec.hash])
    else if Works(rec, luck) then Some(Content(rec.payload.doc, luck.answer))
    else None
  }

  predicate SyncReports(rows: Rows, user: Option<UserId>, id: SessionId, fault: Fault) {
    user.None? || (fault == Up && Owns(rows, user.value, id))
  }

  function RowsSynced(rows: Rows, user: Option<UserId>, id: SessionId, status: RowStatus, fault: Fault): Rows {
    if user.None? || fault == Lost then rows else SetStatus(rows, user.value, id, status)
  }

  /** The record after a run: complete only if the row is known to be ready, processing if an exception escaped. */
  function FinalRecord(rec: Record, rows: Rows, bank: map<Hash, Content>, id: SessionId, luck: Luck): Record {
    match Delivered(rec, bank, luck)
    case None =>
      if Escapes(rec, bank, luck) then MarkedAs(rec, luck.failsAt.value) else rec.(status := Failed, progress := 0)
    case Some(content) => Settled(rec, rows, rec.user, id, content, luck.sync)
  }

  /** The record once the marks before this stage are written. */
  function MarkedAs(rec: Record, stage: nat): Record {
    if 0 < stage <= |PROGRESS| then rec.(status := Processing, progress := PROGRESS[stage - 1]) else rec
  }

  function Settled(rec: Record, rows: Rows, user: Option<UserId>, id: SessionId, content: Content,
                   fault: Fault): Record {
    if SyncReports(rows, user, id, fault)
    then rec.(status := Complete, progress := 100, payload := Study(content))
    else rec.(status := Failed, progress := 0, payload := Study(content))
  }

  function FinalRows(rec: Record, rows: Rows, bank: map<Hash, Content>, id: SessionId, luck: Luck): Rows {
    if Escapes(rec, bank, luck) then rows
    else RowsSynced(rows, rec.user, id, if Delivered(rec, bank, luck).Some? then READY else FAILED, luck.sync)
  }

  /** Only generated content is banked, and never over an entry. */
  function FinalBank(rec: Record, bank: map<Hash, Content>, luck: Luck): map<Hash, Content> {
    if !Hits(rec, bank, luck) && Works(rec, luck) && luck.bank != Lost && rec.hash !in bank
    then bank[rec.hash := Content(rec.payload.doc, luck.answer)]
    else bank
  }

  function TasksAfter(tasks: map<SessionId, Task>, id: SessionId, rec: Record, content: Content,
                      generated: bool): map<SessionId, Task> {
    if generated then tasks[id := Running(rec, SaveBank(content))] else tasks - {id}
  }

  /** After a stage that raised: on to _fail, or gone. */
  function TasksRaised(tasks: map<SessionId, Task>, id: SessionId, rec: Record, escapes: bool): map<SessionId, Task> {
    if escapes then tasks - {id} else tasks[id := Running(rec, Protocol.Fail)]
  }

  function TasksWorked(tasks: map<SessionId, Task>, id: SessionId, rec: Record, content: Option<Content>,
                       escapes: bool): map<SessionId, Task> {
    if content.Some? then tasks[id := Running(rec, Finish(content.value, true))]
    else TasksRaised(tasks, id, rec, escapes)
  }

  /** The content that the stages make, unless one raises. */
  function Made(rec: Record, luck: Luck): Option<Content>
    requires rec.payload.Parsed?
  {
    if luck.failsAt.Some? && luck.failsAt.value <= |PROGRESS| then None else Some(Content(rec.payload.doc, luck.answer))
  }

  /** What a run leaves in the three stores. */
  predicate Left(store: map<SessionId, Record>, rows: Rows, bank: map<Hash, Content>,
                 store': map<SessionId, Record>, rows': Rows, bank': map<Hash, Content>, id: SessionId, luck: Luck)
    requires id in store
  {
    var rec := store[id];
    && store' == store[id := FinalRecord(rec, rows, bank, id, luck)]
    && rows' == FinalRows(rec, rows, bank, id, luck)
    && bank' == FinalBank(rec, bank, luck)
  }

  class Backend {
    var store: map<SessionId, Record>
    var rows: Rows
    var bank: map<Hash, Content>
    ghost var now: State
    ghost var trace: seq<Step>

    ghost predicate Traced()
      reads this
    {
      Legal(INIT, trace) && Exec(INIT, trace) == now
    }

    /** The stores are those of the state that the protocol steps made so far lead to. */
    ghost predicate Valid()
      reads this
    {
      Traced() && store == now.store && rows == now.rows && bank == now.bank
    }

    constructor ()
      ensures Valid() && now == INIT
    {
      store, rows, bank, now, trace := map[], map[], map[], INIT, [];
    }

    ghost method Advance(step: Step)
      requires Traced() && Enabled(now, step)
      modifies this`now, this`trace
      ensures Traced() && now == Apply(old(now), step) && trace == old(trace) + [step]
    {
      ExecAppend(INIT, trace, step);
      now, trace := Apply(now, step), trace + [step];
    }

    ghost method DidRead(id: SessionId)
      requires Traced() && Enabled(now, TaskRead(id))
      modifies this`now, this`trace
      ensures Traced() && now == DoTaskRead(old(now), id)
    {
      Advance(TaskRead(id));
    }

    ghost method DidCache(id: SessionId, fault: Fault)
      requires Traced() && Enabled(now, TaskCache(id, fault))
      modifies this`now, this`trace
      ensures Traced() && now == DoTaskCache(old(now), id, fault)
    {
      Advance(TaskCache(id, fault));
    }

    ghost method DidFail(id: SessionId)
      requires Traced() && Enabled(now, TaskFail(id))
      modifies this`now, this`trace
      ensures Traced() && now == DoTaskFail(old(now), id)
    {
      Advance(TaskFail(id));
    }

    ghost method DidFailSync(id: SessionId, fault: Fault)
      requires Traced() && Enabled(now, TaskFailSync(id, fault))
      modifies this`now, this`trace
      ensures Traced() && now == DoTaskFailSync(old(now), id, fault)
    {
      Advance(TaskFailSync(id, fault));
    }

    ghost method DidFinish(id: SessionId)
      requires Traced() && Enabled(now, TaskFinish(id))
      modifies this`now, this`trace
      ensures Traced() && now == DoTaskFinish(old(now), id)
    {
      Advance(TaskFinish(id));
    }

    ghost method DidFinishSync(id: SessionId, fault: Fault)
      requires Traced() && Enabled(now, TaskFinishSync(id, fault))
      modifies this`now, this`trace
      ensures Traced() && now == DoTaskFinishSync(old(now), id, fault)
    {
      Advance(TaskFinishSync(id, fault));
    }

    ghost method DidRollback(id: SessionId)
      requires Traced() && Enabled(now, TaskRollback(id))
      modifies this`now, this`trace
      ensures Traced() && now == DoTaskRollback(old(now), id)
    {
      Advance(TaskRollback(id));
    }

    ghost method DidWork(id: SessionId, rec: Record, stage: nat, succeeds: bool, answer: nat)
      requires Traced() && Stands(id, rec, Work(stage)) && (succeeds || stage >= 2) && rec.payload.Parsed?
      modifies this`now, this`trace
      ensures Traced()
      ensures now.rows == old(now.rows) && now.bank == old(now.bank)
      ensures now.tasks == old(now.tasks)[id := Running(rec, WorkNext(rec, stage, succeeds, answer))]
      ensures now.store == if succeeds && stage < |PROGRESS|
                           then Protocol.UpdateStatus(old(now.store), id, Processing, PROGRESS[stage], None)
                             else old(now.store)
    {
      Advance(TaskWork(id, succeeds, answer));
    }

    ghost method DidEscape(id: SessionId, rec: Record, stage: nat)
      requires Traced() && Stands(id, rec, Work(stage))
      modifies this`now, this`trace
      ensures Traced()
      ensures now.rows == old(now.rows) && now.bank == old(now.bank) && now.store == old(now.store)
      ensures now.tasks == old(now.tasks) - {id}
    {
      Advance(TaskDie(id));
    }

    ghost method DidSaveBank(id: SessionId, fault: Fault)
      requires Traced() && Enabled(now, TaskSaveBank(id, fault))
      modifies this`now, this`trace
      ensures Traced() && now == DoTaskSaveBank(old(now), id, fault)
    {
      Advance(TaskSaveBank(id, fault));
    }

    ghost method DidDeleteRow(user: UserId, id: SessionId, fault: Fault)
      requires Traced() && Enabled(now, DeleteUserRow(user, id, fault))
      modifies this`now, this`trace
      ensures Traced() && now == DoDeleteUserRow(old(now), user, id, fault)
    {
      Advance(DeleteUserRow(user, id, fault));
    }

    ghost method DidDeleteRecord(id: SessionId, done: bool)
      requires Traced() && Enabled(now, DeleteRecord(id, done))
      modifies this`now, this`trace
      ensures Traced() && now == DoDeleteRecord(old(now), id, done)
    {
      Advance(DeleteRecord(id, done));
    }

    method UpdateStatus(id: SessionId, status: Status, progress: nat, payload: Option<Payload>)
      modifies this`store
      ensures store == Protocol.UpdateStatus(old(store), id, status, progress, payload)
    {
      if id !in store {
        return;
      }
      var record := store[id].(status := status, progress := progress);
      if payload.Some? {
        record := record.(payload := payload.value);
      }
      store := store[id := record];
    }

    /** _sync_user_session_status; an exception and an unmatched row both report failure. */
    method SyncStatus(user: Option<UserId>, id: SessionId, status: RowStatus, fault: Fault) returns (ok: bool)
      modifies this`rows
      ensures ok == SyncReports(old(rows), user, id, fault)
      ensures rows == RowsSynced(old(rows), user, id, status, fault)
    {
      if user.None? {
        return true;
      }
      if fault == Lost {
        return false;
      }
      ok := false;
      if id in rows && rows[id].user == user.value {
        rows := rows[id := rows[id].(status := status)];
        ok := fault == Up;
      }
    }

    ghost predicate Stands(id: SessionId, rec: Record, pc: Pc)
      reads this
    {
      id in now.tasks && now.tasks[id] == Running(rec, pc)
    }

    method MarkFailed(id: SessionId, rec: Record)
      requires Valid() && Stands(id, rec, Protocol.Fail)
      modifies this
      ensures Valid() && rows == old(rows) && bank == old(bank)
      ensures store == Protocol.UpdateStatus(old(store), id, Failed, 0, None)
      ensures now.tasks == if rec.user.Some? then old(now.tasks)[id := Running(rec, FailSync)]
                           else old(now.tasks) - {id}
    {
      UpdateStatus(id, Failed, 0, None);
      DidFail(id);
    }

    method SyncFailed(id: SessionId, rec: Record, fault: Fault)
      requires Valid() && Stands(id, rec, FailSync) && rec.user.Some?
      modifies this
      ensures Valid() && store == old(store) && bank == old(bank)
      ensures rows == RowsSynced(old(rows), rec.user, id, FAILED, fault)
      ensures now.tasks == old(now.tasks) - {id}
    {
      var _ := SyncStatus(rec.user, id, FAILED, fault);
      DidFailSync(id, fault);
    }

    /** _fail */
    method Fail(id: SessionId, rec: Record, fault: Fault)
      requires Valid() && Stands(id, rec, Protocol.Fail)
      modifies this
      ensures Valid() && now.tasks == old(now.tasks) - {id}
      ensures store == Protocol.UpdateStatus(old(store), id, Failed, 0, None)
      ensures rows == RowsSynced(old(rows), rec.user, id, FAILED, fault) && bank == old(bank)
    {
      MarkFailed(id, rec);
      if rec.user.Some? {
        SyncFailed(id, rec, fault);
      }
    }

    method MarkComplete(id: SessionId, rec: Record, content: Content, generated: bool)
      requires Valid() && Stands(id, rec, Finish(content, generated))
      modifies this
      ensures Valid() && rows == old(rows) && bank == old(bank)
      ensures store == Protocol.UpdateStatus(old(store), id, Complete, 100, Some(Study(content)))
      ensures now.tasks == old(now.tasks)[id := Running(rec, FinishSync(content, generated))]
    {
      UpdateStatus(id, Complete, 100, Some(Study(content)));
      DidFinish(id);
    }

    method SyncReady(id: SessionId, rec: Record, content: Content, generated: bool, fault: Fault) returns (ok: bool)
      requires Valid() && Stands(id, rec, FinishSync(content, generated))
      modifies this
      ensures Valid() && store == old(store) && bank == old(bank)
      ensures ok == SyncReports(old(rows), rec.user, id, fault)
      ensures rows == RowsSynced(old(rows), rec.user, id, READY, fault)
      ensures now.tasks == if !ok then old(now.tasks)[id := Running(rec, Rollback(content, generated))]
                           else TasksAfter(old(now.tasks), id, rec, content, generated)
    {
      ok := SyncStatus(rec.user, id, READY, fault);
      DidFinishSync(id, fault);
    }

    method RollBack(id: SessionId, rec: Record, content: Content, generated: bool)
      requires Valid() && Stands(id, rec, Rollback(content, generated))
      modifies this
      ensures Valid() && rows == old(rows) && bank == old(bank)
      ensures store == Protocol.UpdateStatus(old(store), id, Failed, 0, Some(Study(content)))
      ensures now.tasks == TasksAfter(old(now.tasks), id, rec, content, generated)
    {
      UpdateStatus(id, Failed, 0, Some(Study(content)));
      DidRollback(id);
    }

    /** _finalize_ready: complete, then back to failed unless the row is known to be ready. */
    method FinalizeReady(id: SessionId, rec: Record, content: Content, generated: bool, fault: Fault)
      requires Valid() && Stands(id, rec, Finish(content, generated))
      modifies this
      ensures Valid()
      ensures now.tasks == TasksAfter(old(now.tasks), id, rec, content, generated)
      ensures rows == RowsSynced(old(rows), rec.user, id, READY, fault) && bank == old(bank)
      ensures store == if SyncReports(old(rows), rec.user, id, fault)
                       then Protocol.UpdateStatus(old(store), id, Complete, 100, Some(Study(content)))
                       else Protocol.UpdateStatus(old(store), id, Failed, 0, Some(Study(content)))
    {
      MarkComplete(id, rec, content, generated);
      var ok := SyncReady(id, rec, content, generated, fault);
      if !ok {
        RollBack(id, rec, content, generated);
      }
    }

    /** A stage that raises, with an exception that is handled or with one that escapes. */
    method Raise(id: SessionId, rec: Record, stage: nat, luck: Luck, ghost tasks: map<SessionId, Task>)
      requires Valid() && stage >= 2 && rec.payload.Parsed? && id in tasks
      requires now.tasks == tasks[id := Running(rec, Work(stage))]
      modifies this
      ensures Valid() && store == old(store) && rows == old(rows) && bank == old(bank)
      ensures now.tasks == TasksRaised(tasks, id, rec, luck.escapes)
    {
      if luck.escapes {
        DidEscape(id, rec, stage);
      } else {
        DidWork(id, rec, stage, false, luck.answer);
      }
    }

    /** A progress mark, unless the stage before it raised. */
    method Mark(id: SessionId, rec: Record, stage: nat, luck: Luck,
                ghost tasks: map<SessionId, Task>, ghost before: map<SessionId, Record>) returns (ok: bool)
      requires Valid() && Possible(luck) && stage < |PROGRESS| && rec.payload.Parsed? && id in tasks
      requires now.tasks == tasks[id := Running(rec, Work(stage))] && Marked(before, store, id, stage)
      modifies this
      ensures Valid() && rows == old(rows) && bank == old(bank)
      ensures ok == (luck.failsAt != Some(stage))
      ensures now.tasks == if ok then tasks[id := Running(rec, Work(stage + 1))]
                           else TasksRaised(tasks, id, rec, luck.escapes)
      ensures Marked(before, store, id, if ok then stage + 1 else stage)
    {
      ok := luck.failsAt != Some(stage);
      if !ok {
        Raise(id, rec, stage, luck, tasks);
        return;
      }
      MarkAgain(before, store, id, stage);
      UpdateStatus(id, Processing, PROGRESS[stage], None);
      DidWork(id, rec, stage, true, luck.answer);
    }

    /** The last stage, with nothing left to mark: the validated content. */
    method Conclude(id: SessionId, rec: Record, luck: Luck, ghost tasks: map<SessionId, Task>)
      returns (content: Option<Content>)
      requires Valid() && Possible(luck) && rec.payload.Parsed? && id in tasks
      requires now.tasks == tasks[id := Running(rec, Work(5))]
      modifies this
      ensures Valid() && store == old(store) && rows == old(rows) && bank == old(bank)
      ensures content == if luck.failsAt == Some(5) then None else Some(Content(rec.payload.doc, luck.answer))
      ensures now.tasks == TasksWorked(tasks, id, rec, content, luck.escapes)
    {
      if luck.failsAt == Some(5) {
        Raise(id, rec, 5, luck, tasks);
        return None;
      }
      DidWork(id, rec, 5, true, luck.answer);
      content := Some(Content(rec.payload.doc, luck.answer));
    }

    /** The first two marks and the notes stage; the marks before it cannot fail. */
    method MakeNotes(id: SessionId, rec: Record, luck: Luck,
                     ghost tasks: map<SessionId, Task>, ghost before: map<SessionId, Record>) returns (ok: bool)
      requires Valid() && Possible(luck) && rec.payload.Parsed? && id in tasks
      requires now.tasks == tasks[id := Running(rec, Work(0))] && Marked(before, store, id, 0)
      modifies this
      ensures Valid() && rows == old(rows) && bank == old(bank)
      ensures ok == (luck.failsAt != Some(2)) && Marked(before, store, id, if ok then 3 else 2)
      ensures now.tasks == if ok then tasks[id := Running(rec, Work(3))] else TasksRaised(tasks, id, rec, luck.escapes)
    {
      ok := Mark(id, rec, 0, luck, tasks, before);
      ok := Mark(id, rec, 1, luck, tasks, before);
      ok := Mark(id, rec, 2, luck, tasks, before);
    }

    /** The question stages, up to the validated content. */
    method MakeQuestions(id: SessionId, rec: Record, luck: Luck,
                         ghost tasks: map<SessionId, Task>, ghost before: map<SessionId, Record>)
      returns (content: Option<Content>)
      requires Valid() && Possible(luck) && rec.payload.Parsed? && id in tasks
      requires luck.failsAt != Some(2)
      requires now.tasks == tasks[id := Running(rec, Work(3))] && Marked(before, store, id, 3)
      modifies this
      ensures Valid() && rows == old(rows) && bank == old(bank)
      ensures content == Made(rec, luck)
      ensures Marked(before, store, id, if content.None? then luck.failsAt.value else |PROGRESS|)
      ensures now.tasks == TasksWorked(tasks, id, rec, content, luck.escapes)
    {
      var ok := Mark(id, rec, 3, luck, tasks, before);
      if !ok {
        return None;
      }
      ok := Mark(id, rec, 4, luck, tasks, before);
      if !ok {
        return None;
      }
      content := Conclude(id, rec, luck, tasks);
    }

    /** The stages of a generation, up to the validated content. */
    method Generate(id: SessionId, rec: Record, luck: Luck) returns (content: Option<Content>)
      requires Valid() && Possible(luck) && id in store && rec.payload.Parsed? && Stands(id, rec, Work(0))
      modifies this
      ensures Valid() && rows == old(rows) && bank == old(bank)
      ensures content == Made(rec, luck)
      ensures Marked(old(store), store, id, if content.None? then luck.failsAt.value else |PROGRESS|)
      ensures now.tasks == TasksWorked(old(now.tasks), id, rec, content, luck.escapes)
    {
      ghost var tasks, before := now.tasks, store;
      NothingMarked(store, id);
      var ok := MakeNotes(id, rec, luck, tasks, before);
      if !ok {
        return None;
      }
      content := MakeQuestions(id, rec, luck, tasks, before);
    }

    method ReadRecord(id: SessionId) returns (rec: Option<Record>)
      requires Valid() && id in now.tasks && now.tasks[id].Scheduled?
      modifies this
      ensures Valid() && store == old(store) && rows == old(rows) && bank == old(bank)
      ensures rec == if id in store then Some(store[id]) else None
      ensures now.tasks == if rec.Some? then old(now.tasks)[id := Running(rec.value, Cache)] else old(now.tasks) - {id}
    {
      rec := if id in store then Some(store[id]) else None;
      DidRead(id);
    }

    /** get_cached */
    method GetCached(id: SessionId, rec: Record, luck: Luck) returns (cached: Option<Content>)
      requires Valid() && Stands(id, rec, Cache)
      modifies this
      ensures Valid() && store == old(store) && rows == old(rows) && bank == old(bank)
      ensures cached == if Hits(rec, bank, luck) then Some(bank[rec.hash]) else None
      ensures var next := if cached.Some? then Finish(cached.value, false) else AfterMiss(rec.payload);
              now.tasks == old(now.tasks)[id := Running(rec, next)]
    {
      cached := if rec.hash in bank && luck.cache == Up then Some(bank[rec.hash]) else None;
      DidCache(id, luck.cache);
    }

    /** What follows a miss of the bank. */
    method RunUncached(id: SessionId, rec: Record, luck: Luck)
      requires Valid() && Possible(luck) && Stands(id, rec, AfterMiss(rec.payload))
      requires id in store && store[id] == rec && !Hits(rec, bank, luck)
      modifies this
      ensures Valid() && now.tasks == old(now.tasks) - {id}
      ensures Left(old(store), old(rows), old(bank), store, rows, bank, id, luck)
    {
      if !rec.payload.Parsed? || !rec.payload.doc.hasText {
        Fail(id, rec, luck.sync);
        return;
      }
      var content := Generate(id, rec, luck);
      if content.None? {
        if !luck.escapes {
          Fail(id, rec, luck.sync);
        }
        return;
      }
      Deliver(id, rec, content.value, luck);
    }

    /** Finalise generated content, then offer it to the bank. */
    method Deliver(id: SessionId, rec: Record, content: Content, luck: Luck)
      requires Valid() && Stands(id, rec, Finish(content, true)) && id in store
      modifies this
      ensures Valid() && now.tasks == old(now.tasks) - {id}
      ensures store == old(store)[id := Settled(old(store)[id], old(rows), rec.user, id, content, luck.sync)]
      ensures rows == RowsSynced(old(rows), rec.user, id, READY, luck.sync)
      ensures bank == if luck.bank == Lost || rec.hash in old(bank) then old(bank) else old(bank)[rec.hash := content]
    {
      FinalizeReady(id, rec, content, true, luck.sync);
      SaveToBank(id, rec, content, luck.bank);
    }

    /** The background task: what it leaves in the three stores. */
    method RunGeneration(id: SessionId, luck: Luck)
      requires Valid() && Possible(luck) && id in now.tasks && now.tasks[id].Scheduled?
      modifies this
      ensures Valid() && now.tasks == old(now.tasks) - {id}
      ensures id !in old(store) ==> store == old(store) && rows == old(rows) && bank == old(bank)
      ensures id in old(store) ==> Left(old(store), old(rows), old(bank), store, rows, bank, id, luck)
    {
      var record := ReadRecord(id);
      if record.None? {
        return;
      }
      var rec := record.value;
      var cached := GetCached(id, rec, luck);
      if cached.Some? {
        FinalizeReady(id, rec, cached.value, false, luck.sync);
        return;
      }
      RunUncached(id, rec, luck);
    }

    /** save_to_bank: an insert that gives way to an existing entry, its failure swallowed. */
    method SaveToBank(id: SessionId, rec: Record, content: Content, fault: Fault)
      requires Valid() && Stands(id, rec, SaveBank(content))
      modifies this
      ensures Valid() && store == old(store) && rows == old(rows)
      ensures now.tasks == old(now.tasks) - {id}
      ensures bank == if fault == Lost || rec.hash in old(bank) then old(bank) else old(bank)[rec.hash := content]
    {
      if fault != Lost && rec.hash !in bank {
        bank := bank[rec.hash := content];
      }
      DidSaveBank(id, fault);
    }

    /** The end of upload_pdf: the row first, then the record under the row's id. */
    method UploadPdf(uploader: Option<UserId>, doc: Document, meta: Meta, offered: SessionId, target: SessionId,
                     fault: Fault)
      returns (id: SessionId)
      requires Valid() && Enabled(now, UploadRow(uploader, doc, meta, offered, target, fault))
      modifies this
      ensures Valid() && bank == old(bank)
      ensures id == UploadId(uploader, offered, target, fault)
      ensures store == old(store)[id := Record(uploader, doc.hash, Uploaded, 0, Parsed(doc))]
      ensures rows == UploadedRows(old(rows), uploader, doc, meta, target, fault)
    {
      id := offered;
      if uploader.Some? && fault != Lost {
        var row := Row(uploader.value, Some(doc.hash), PENDING, meta);
        if target in rows {
          row := row.(status := KeptStatus(rows[target].status, PENDING));
        }
        rows := rows[target := row];
        if fault == Up {
          id := target;
        }
      }
      Advance(UploadRow(uploader, doc, meta, offered, target, fault));
      store := store[id := Record(uploader, doc.hash, Uploaded, 0, Parsed(doc))];
      Advance(UploadSave(Upload(id, uploader, doc)));
    }

    /** The DELETE on user_sessions; only an answer that arrives reports success. */
    method DropRow(user: UserId, id: SessionId, fault: Fault) returns (found: bool)
      requires Valid() && id !in now.deletes
      modifies this
      ensures Valid() && bank == old(bank) && store == old(store)
      ensures found == (Owns(old(rows), user, id) && fault == Up)
      ensures rows == if fault == Lost then old(rows) else DeleteRow(old(rows), user, id)
      ensures found ==> id in now.deletes
    {
      found := id in rows && rows[id].user == user && fault == Up;
      if fault != Lost && id in rows && rows[id].user == user {
        rows := rows - {id};
      }
      DidDeleteRow(user, id, fault);
    }

    /** Forgetting the record; a failure is swallowed. */
    method DropRecord(id: SessionId, done: bool)
      requires Valid() && id in now.deletes
      modifies this
      ensures Valid() && bank == old(bank) && rows == old(rows)
      ensures store == if done then old(store) - {id} else old(store)
    {
      if done {
        store := store - {id};
      }
      DidDeleteRecord(id, done);
    }

    /** The two-step delete. */
    method DeleteSession(user: UserId, id: SessionId, fault: Fault, done: bool) returns (found: bool)
      requires Valid() && id !in now.deletes
      modifies this
      ensures Valid() && bank == old(bank)
      ensures found == (Owns(old(rows), user, id) && fault == Up)
      ensures rows == if fault == Lost then old(rows) else DeleteRow(old(rows), user, id)
      ensures store == if found && done then old(store) - {id} else old(store)
    {
      found := DropRow(user, id, fault);
      if found {
        DropRecord(id, done);
      }
    }
  }

  /** Only this record differs, by the marks written before the stage. */
  predicate Marked(before: map<SessionId, Record>, after: map<SessionId, Record>, id: SessionId, stage: nat) {
    id in before && after == before[id := MarkedAs(before[id], stage)]
  }

  lemma {:induction false} NothingMarked(store: map<SessionId, Record>, id: SessionId)
    requires id in store
    ensures Marked(store, store, id, 0)
  {
  }

  lemma {:induction false} MarkAgain(before: map<SessionId, Record>, store: map<SessionId, Record>, id: SessionId,
                                     stage: nat)
    requires Marked(before, store, id, stage) && stage < |PROGRESS|
    ensures Marked(before, UpdateStatus(store, id, Processing, PROGRESS[stage], None), id, stage + 1)
  {
  }

  /**
   * What a run leaves in a user's record, case by case. It has content if the bank answered with some, or if
   * there was text and no stage raised; with content it is complete exactly when its row is reported ready.
   */
  lemma {:induction false} RunLeaves(rec: Record, rows: Rows, bank: map<Hash, Content>, id: SessionId, luck: Luck)
    requires rec.user.Some? && Possible(luck)
    ensures var after := FinalRecord(rec, rows, bank, id, luck);
            var hit := rec.hash in bank && luck.cache == Up;
            var text := rec.payload.Parsed? && rec.payload.doc.hasText;
            var made := text && (luck.failsAt.None? || luck.failsAt.value > 5);
            var told := luck.sync == Up && Owns(rows, rec.user.value, id);
            && after.user == rec.user && after.hash == rec.hash
            && (hit ==> after.payload == Study(bank[rec.hash]))
            && (!hit && made ==> after.payload == Study(Content(rec.payload.doc, luck.answer)))
            && (!hit && !made ==> after.payload == rec.payload)
            && ((hit || made) && told ==> after.status == Complete && after.progress == 100)
            && ((hit || made) && !told ==> after.status == Failed)
            && (!hit && !made ==> after.status == if text && luck.escapes then Processing else Failed)
    ensures FinalRecord(rec, rows, bank, id, luck).status == Complete ==>
              var table := FinalRows(rec, rows, bank, id, luck);
              Owns(table, rec.user.value, id) && table[id].status == READY
    ensures forall hash | hash in bank :: BankHolds(FinalBank(rec, bank, luck), hash, bank[hash])
    ensures forall hash | hash in FinalBank(rec, bank, luck) :: hash in bank || hash == rec.hash
  {
  }

  predicate BankHolds(bank: map<Hash, Content>, hash: Hash, content: Content) {
    hash in bank && bank[hash] == content
  }
}
