/** From every reachable state a new upload can be carried through to agreement in all three stores. */
module ProtocolProgress {
  import opened Wrappers
  import opened StudyTypes
  import opened UserRows
  import opened Protocol
  import opened ProtocolInvariants
  import opened ProtocolTheorems
  import opened ProtocolHealing
  import opened ProtocolStuck

  /** The record of an upload, before any result: its status is uploaded, or failed after a failed generation. */
  function Parked(user: UserId, doc: Document, status: Status): Record {
    Record(Some(user), doc.hash, status, 0, Parsed(doc))
  }

  /** A session with parsed text and nothing in flight: its record and row as they were last left. */
  predicate Fresh(s: State, id: SessionId, user: UserId, doc: Document, status: Status, row: RowStatus) {
    && id in s.store && s.store[id] == Parked(user, doc, status)
    && Owns(s.rows, user, id) && s.rows[id].status == row && s.rows[id].hash == Some(doc.hash)
    && id !in s.tasks && id !in s.deletes && doc.hash !in s.bank
  }

  /** Its generation stands at pc and its row is still as it was. */
  predicate Working(s: State, id: SessionId, user: UserId, doc: Document, status: Status, row: RowStatus, pc: Pc) {
    && id in s.tasks && s.tasks[id] == Running(Parked(user, doc, status), pc)
    && id in s.store && s.store[id].user == Some(user) && s.store[id].hash == doc.hash
    && (pc.Fail? || pc.FailSync? ==> s.store[id].payload == Parsed(doc))
    && (pc.FailSync? ==> s.store[id] == Parked(user, doc, Failed))
    && (pc.Work? ==> s.store[id].payload == Parsed(doc) && (pc.stage > 0 ==> s.store[id].status == Processing))
    && Owns(s.rows, user, id) && s.rows[id].hash == Some(doc.hash)
    && (!pc.SaveBank? && !pc.Rollback? ==> s.rows[id].status == row)
    && id !in s.deletes && doc.hash !in s.bank
  }

  lemma {:induction false} FreshRow(s: State, user: UserId, doc: Document, meta: Meta, id: SessionId) returns (t: State)
    requires Reachable(s) && id !in s.issued && KeyFree(s.rows, user, Some(doc.hash))
    ensures Reachable(t) && t == DoUploadRow(s, Some(user), doc, meta, id, id, Up)
  {
    ReachableStep(s, UploadRow(Some(user), doc, meta, id, id, Up));
    t := DoUploadRow(s, Some(user), doc, meta, id, id, Up);
  }

  lemma {:induction false} Saved(s: State, up: Upload) returns (t: State)
    requires Reachable(s) && up in s.uploads
    ensures Reachable(t) && t == DoUploadSave(s, up)
  {
    ReachableStep(s, UploadSave(up));
    t := DoUploadSave(s, up);
  }

  lemma {:induction false} AfterUpload(s: State, user: UserId, doc: Document, meta: Meta, id: SessionId)
    returns (t: State)
    requires Reachable(s) && id !in s.issued && id !in s.tasks && id !in s.deletes
    requires KeyFree(s.rows, user, Some(doc.hash)) && doc.hash !in s.bank
    ensures Reachable(t) && Fresh(t, id, user, doc, Uploaded, PENDING)
  {
    AlwaysInv(s);
    FreshId(s, id);
    t := FreshRow(s, user, doc, meta, id);
    RowThenRecord(s, user, doc, meta, id);
    t := Saved(t, Upload(id, Some(user), doc));
  }

  lemma {:induction false} RowThenRecord(s: State, user: UserId, doc: Document, meta: Meta, id: SessionId)
    requires id !in s.rows && id !in s.tasks && id !in s.deletes && doc.hash !in s.bank
    ensures var t := DoUploadRow(s, Some(user), doc, meta, id, id, Up);
            var up := Upload(id, Some(user), doc);
            up in t.uploads && Fresh(DoUploadSave(t, up), id, user, doc, Uploaded, PENDING)
  {
  }

  lemma {:induction false} AfterStart(s: State, id: SessionId, user: UserId, doc: Document, status: Status,
                                      row: RowStatus)
    returns (t: State)
    requires Reachable(s) && Fresh(s, id, user, doc, status, row) && doc.hasText
             && (status == Uploaded || status == Failed)
    ensures Reachable(t) && Working(t, id, user, doc, status, row, Work(0))
  {
    ReachableStep(s, StartGeneration(id));
    var u := s.(tasks := s.tasks[id := Scheduled]);
    ReachableStep(u, TaskRead(id));
    var v := DoTaskRead(u, id);
    ReachableStep(v, TaskCache(id, Up));
    t := DoTaskCache(v, id, Up);
  }

  lemma {:induction false} WorkStep(s: State, id: SessionId, user: UserId, doc: Document, status: Status,
                                    row: RowStatus, stage: nat, answer: nat)
    returns (t: State)
    requires Reachable(s) && Working(s, id, user, doc, status, row, Work(stage))
    ensures Reachable(t)
    ensures var next := if stage < |PROGRESS| then Work(stage + 1) else Finish(Content(doc, answer), true);
            Working(t, id, user, doc, status, row, next)
  {
    ReachableStep(s, TaskWork(id, true, answer));
    t := DoTaskWork(s, id, true, answer);
  }

  lemma {:induction false} AfterWork(s: State, id: SessionId, user: UserId, doc: Document, status: Status,
                                     row: RowStatus, stage: nat, answer: nat)
    returns (t: State)
    requires Reachable(s) && Working(s, id, user, doc, status, row, Work(stage)) && stage <= |PROGRESS|
    ensures Reachable(t) && Working(t, id, user, doc, status, row, Finish(Content(doc, answer), true))
    decreases |PROGRESS| - stage
  {
    t := WorkStep(s, id, user, doc, status, row, stage, answer);
    if stage < |PROGRESS| {
      t := AfterWork(t, id, user, doc, status, row, stage + 1, answer);
    }
  }

  lemma {:induction false} StageFails(s: State, id: SessionId, user: UserId, doc: Document, status: Status,
                                      row: RowStatus, stage: nat)
    returns (t: State)
    requires Reachable(s) && Working(s, id, user, doc, status, row, Work(stage)) && stage >= 2
    ensures Reachable(t) && Working(t, id, user, doc, status, row, Fail)
  {
    ReachableStep(s, TaskWork(id, false, 0));
    t := DoTaskWork(s, id, false, 0);
  }

  lemma {:induction false} FailMarked(s: State, id: SessionId, user: UserId, doc: Document, status: Status,
                                      row: RowStatus)
    returns (t: State)
    requires Reachable(s) && Working(s, id, user, doc, status, row, Fail)
    ensures Reachable(t) && Working(t, id, user, doc, status, row, FailSync)
  {
    ReachableStep(s, TaskFail(id));
    t := DoTaskFail(s, id);
  }

  lemma {:induction false} FailSynced(s: State, id: SessionId, user: UserId, doc: Document, status: Status,
                                      row: RowStatus)
    returns (t: State)
    requires Reachable(s) && Working(s, id, user, doc, status, row, FailSync)
    ensures Reachable(t) && Fresh(t, id, user, doc, Failed, FAILED)
  {
    ReachableStep(s, TaskFailSync(id, Up));
    t := DoTaskFailSync(s, id, Up);
  }

  lemma {:induction false} AtNotes(s: State, id: SessionId, user: UserId, doc: Document, status: Status, row: RowStatus)
    returns (t: State)
    requires Reachable(s) && Fresh(s, id, user, doc, status, row) && doc.hasText
             && (status == Uploaded || status == Failed)
    ensures Reachable(t) && Working(t, id, user, doc, status, row, Work(2))
  {
    t := AfterStart(s, id, user, doc, status, row);
    t := WorkStep(t, id, user, doc, status, row, 0, 0);
    t := WorkStep(t, id, user, doc, status, row, 1, 0);
  }

  /** A first generation whose notes stage fails: record and row read failed, the parsed text is still there. */
  lemma {:induction false} AfterFailure(s: State, id: SessionId, user: UserId, doc: Document, status: Status,
                                        row: RowStatus)
    returns (t: State)
    requires Reachable(s) && Fresh(s, id, user, doc, status, row) && doc.hasText
             && (status == Uploaded || status == Failed)
    ensures Reachable(t) && Fresh(t, id, user, doc, Failed, FAILED)
  {
    t := AtNotes(s, id, user, doc, status, row);
    t := StageFails(t, id, user, doc, status, row, 2);
    t := FailMarked(t, id, user, doc, status, row);
    t := FailSynced(t, id, user, doc, status, row);
  }

  lemma {:induction false} FinishMarked(s: State, id: SessionId, user: UserId, doc: Document, status: Status,
                                        row: RowStatus, content: Content)
    returns (t: State)
    requires Reachable(s) && Working(s, id, user, doc, status, row, Finish(content, true))
    ensures Reachable(t) && Working(t, id, user, doc, status, row, FinishSync(content, true))
    ensures CompleteFor(t, id, user) && t.store[id].payload == Study(content)
  {
    ReachableStep(s, TaskFinish(id));
    t := DoTaskFinish(s, id);
  }

  lemma {:induction false} FinishSynced(s: State, id: SessionId, user: UserId, doc: Document, status: Status,
                                        row: RowStatus, content: Content)
    returns (t: State)
    requires Reachable(s) && Working(s, id, user, doc, status, row, FinishSync(content, true))
    ensures Reachable(t) && Working(t, id, user, doc, status, row, SaveBank(content)) && ReadyFor(t, id, user)
            && t.store == s.store
  {
    ReachableStep(s, TaskFinishSync(id, Up));
    t := DoTaskFinishSync(s, id, Up);
  }

  lemma {:induction false} AfterFinish(s: State, id: SessionId, user: UserId, doc: Document, status: Status,
                                       row: RowStatus, content: Content)
    returns (t: State)
    requires Reachable(s) && Working(s, id, user, doc, status, row, Finish(content, true))
    ensures Reachable(t) && Working(t, id, user, doc, status, row, SaveBank(content)) && CompleteFor(t, id, user)
            && ReadyFor(t, id, user)
    ensures t.store[id].payload == Study(content)
  {
    t := FinishMarked(s, id, user, doc, status, row, content);
    t := FinishSynced(t, id, user, doc, status, row, content);
  }

  lemma {:induction false} AfterBank(s: State, id: SessionId, user: UserId, doc: Document, status: Status,
                                     row: RowStatus, content: Content)
    returns (t: State)
    requires Reachable(s) && Working(s, id, user, doc, status, row, SaveBank(content))
    ensures Reachable(t) && t.store == s.store && t.rows == s.rows && t.tasks == s.tasks - {id}
    ensures t.bank == s.bank[doc.hash := content] && t.deletes == s.deletes
  {
    ReachableStep(s, TaskSaveBank(id, Up));
    t := DoTaskSaveBank(s, id, Up);
  }

  /**
   * The agreement is not an empty promise: a new PDF with text, uploaded and generated, ends complete,
   * ready and banked, and its owner is served exactly what the model answered for it.
   */
  lemma {:induction false} UploadCanComplete(s: State, user: UserId, doc: Document, meta: Meta, id: SessionId,
                                             answer: nat)
    returns (t: State)
    requires Reachable(s) && id !in s.issued && id !in s.tasks && id !in s.deletes && doc.hasText
    requires KeyFree(s.rows, user, Some(doc.hash)) && doc.hash !in s.bank
    ensures Reachable(t) && CompleteFor(t, id, user) && ReadyFor(t, id, user) && id !in t.tasks && id !in t.deletes
    ensures doc.hash in t.bank && t.bank[doc.hash] == Content(doc, answer)
    ensures forall rowFault, bankFault ::
              GetResult(t, id, Some(user), rowFault, bankFault) == Served(Content(doc, answer))
  {
    t := AfterUpload(s, user, doc, meta, id);
    t := AfterStart(t, id, user, doc, Uploaded, PENDING);
    t := AfterWork(t, id, user, doc, Uploaded, PENDING, 0, answer);
    t := AfterFinish(t, id, user, doc, Uploaded, PENDING, Content(doc, answer));
    t := AfterBank(t, id, user, doc, Uploaded, PENDING, Content(doc, answer));
  }

  /** The empty state, from which every run starts, meets all that the lemmas here ask of a state. */
  lemma {:induction false} InitReachable()
    ensures Reachable(INIT)
  {
    assert Legal(INIT, []) && Exec(INIT, []) == INIT;
  }

  /** The first exception to the agreement is reachable too, with nothing left in flight to mend it. */
  lemma {:induction false} LostDeleteIsReachable(s: State, user: UserId, doc: Document, meta: Meta, id: SessionId)
    returns (t: State)
    requires Reachable(s) && id !in s.issued && id !in s.tasks && id !in s.deletes && doc.hasText
    requires KeyFree(s.rows, user, Some(doc.hash)) && doc.hash !in s.bank
    ensures Reachable(t) && CompleteFor(t, id, user) && id !in t.rows && id !in t.deletes
  {
    t := UploadCanComplete(s, user, doc, meta, id, 0);
    LostDeleteDisagrees(t, id, user);
    t := Apply(t, DeleteUserRow(user, id, Late));
  }

  /** So is the second. */
  lemma {:induction false} DeadFinalizeIsReachable(s: State, user: UserId, doc: Document, meta: Meta, id: SessionId)
    returns (t: State)
    requires Reachable(s) && id !in s.issued && id !in s.tasks && id !in s.deletes && doc.hasText
    requires KeyFree(s.rows, user, Some(doc.hash)) && doc.hash !in s.bank
    ensures Reachable(t) && CompleteFor(t, id, user) && !ReadyFor(t, id, user) && id !in t.tasks
  {
    t := AfterUpload(s, user, doc, meta, id);
    t := AfterStart(t, id, user, doc, Uploaded, PENDING);
    t := AfterWork(t, id, user, doc, Uploaded, PENDING, 0, 0);
    t := FinishMarked(t, id, user, doc, Uploaded, PENDING, Content(doc, 0));
    DeadFinalizeDisagrees(t, id, user);
    t := Apply(t, TaskDie(id));
  }

  lemma {:induction false} ForgetFails(s: State, id: SessionId, user: UserId) returns (t: State)
    requires Reachable(s) && CompleteFor(s, id, user) && Owns(s.rows, user, id)
    ensures Reachable(t) && CompleteFor(t, id, user) && id !in t.rows && id !in t.deletes
  {
    ReachableStep(s, DeleteUserRow(user, id, Up));
    var u := DoDeleteUserRow(s, user, id, Up);
    ReachableStep(u, DeleteRecord(id, false));
    t := DoDeleteRecord(u, id, false);
  }

  /** And the third: the row is deleted, and forgetting the record fails without anybody noticing. */
  lemma {:induction false} FailedForgetIsReachable(s: State, user: UserId, doc: Document, meta: Meta, id: SessionId)
    returns (t: State)
    requires Reachable(s) && id !in s.issued && id !in s.tasks && id !in s.deletes && doc.hasText
    requires KeyFree(s.rows, user, Some(doc.hash)) && doc.hash !in s.bank
    ensures Reachable(t) && CompleteFor(t, id, user) && id !in t.rows && id !in t.deletes
  {
    t := UploadCanComplete(s, user, doc, meta, id, 0);
    t := ForgetFails(t, id, user);
  }

  /**
   * The self-heal does not reach every lost sync: a generation that fails, and a second one whose row
   * update is lost, leave the row failed after the next listing although its document is banked.
   */
  lemma {:induction false} FailedRowStaysFailed(s: State, user: UserId, doc: Document, meta: Meta, id: SessionId)
    returns (t: State)
    requires Reachable(s) && id !in s.issued && id !in s.tasks && id !in s.deletes && doc.hasText
    requires KeyFree(s.rows, user, Some(doc.hash)) && doc.hash !in s.bank
    ensures Reachable(t) && id !in t.tasks && doc.hash in t.bank
    ensures Legal(t, Listing(t, user)) && !ReadyFor(Exec(t, Listing(t, user)), id, user)
  {
    t := AfterUpload(s, user, doc, meta, id);
    t := AfterFailure(t, id, user, doc, Uploaded, PENDING);
    t := AfterStart(t, id, user, doc, Failed, FAILED);
    t := AfterWork(t, id, user, doc, Failed, FAILED, 0, 0);
    t := FinishMarked(t, id, user, doc, Failed, FAILED, Content(doc, 0));
    t := LostSyncStays(t, id, user, doc, Content(doc, 0));
  }

  lemma {:induction false} LostSyncStays(s: State, id: SessionId, user: UserId, doc: Document, content: Content)
    returns (t: State)
    requires Reachable(s) && Working(s, id, user, doc, Failed, FAILED, FinishSync(content, true))
    ensures Reachable(t) && id !in t.tasks && doc.hash in t.bank
    ensures Legal(t, Listing(t, user)) && !ReadyFor(Exec(t, Listing(t, user)), id, user)
  {
    SyncLossRepairedIff(s, id, user, content, true, Lost);
    SyncLossEnds(s, id, user, content, true, Lost);
    t := Exec(s, SyncLoss(id, true, Lost));
    ReachableRun(s, SyncLoss(id, true, Lost));
  }

  lemma {:induction false} ReachableRun(s: State, steps: seq<Step>)
    requires Reachable(s) && Legal(s, steps)
    ensures Reachable(Exec(s, steps))
    decreases |steps|
  {
    if steps != [] {
      ReachableStep(s, steps[0]);
      ReachableRun(Apply(s, steps[0]), steps[1..]);
    }
  }

  /** A completed result whose bank save was lost is gone with its record: its owner is told not found. */
  lemma {:induction false} LostSaveForgets(s: State, user: UserId, doc: Document, meta: Meta, id: SessionId)
    returns (t: State)
    requires Reachable(s) && id !in s.issued && id !in s.tasks && id !in s.deletes && doc.hasText
    requires KeyFree(s.rows, user, Some(doc.hash)) && doc.hash !in s.bank
    ensures Reachable(t) && CompleteFor(t, id, user) && ReadyFor(t, id, user) && id !in t.tasks
    ensures GetResult(Apply(t, Forget(id)), id, Some(user), Up, Up) == NotFound
  {
    t := AfterUpload(s, user, doc, meta, id);
    t := AfterStart(t, id, user, doc, Uploaded, PENDING);
    t := AfterWork(t, id, user, doc, Uploaded, PENDING, 0, 0);
    t := AfterFinish(t, id, user, doc, Uploaded, PENDING, Content(doc, 0));
    t := SaveLost(t, id, user, doc, Uploaded, PENDING, Content(doc, 0));
    ForgottenUnbanked(t, id, user, doc.hash);
  }

  lemma {:induction false} SaveLost(s: State, id: SessionId, user: UserId, doc: Document, status: Status,
                                    row: RowStatus, content: Content)
    returns (t: State)
    requires Reachable(s) && Working(s, id, user, doc, status, row, SaveBank(content))
    ensures Reachable(t) && t.store == s.store && t.rows == s.rows && t.bank == s.bank && t.tasks == s.tasks - {id}
  {
    ReachableStep(s, TaskSaveBank(id, Lost));
    t := DoTaskSaveBank(s, id, Lost);
  }

  lemma {:induction false} ForgottenUnbanked(s: State, id: SessionId, user: UserId, hash: Hash)
    requires Owns(s.rows, user, id) && s.rows[id].hash == Some(hash) && hash !in s.bank
    ensures GetResult(Apply(s, Forget(id)), id, Some(user), Up, Up) == NotFound
  {
    assert Apply(s, Forget(id)) == DoForget(s, id);
  }

  lemma {:induction false} Died(s: State, id: SessionId, user: UserId, doc: Document, status: Status, row: RowStatus,
                                stage: nat)
    returns (t: State)
    requires Reachable(s) && Working(s, id, user, doc, status, row, Work(stage)) && stage > 0
    ensures Reachable(t) && Stuck(t, id)
  {
    ReachableStep(s, TaskDie(id));
    t := DoTaskDie(s, id);
  }

  /** A stage whose exception no handler names leaves the session processing with nobody working on it. */
  lemma {:induction false} StuckIsReachable(s: State, user: UserId, doc: Document, meta: Meta, id: SessionId)
    returns (t: State)
    requires Reachable(s) && id !in s.issued && id !in s.tasks && id !in s.deletes && doc.hasText
    requires KeyFree(s.rows, user, Some(doc.hash)) && doc.hash !in s.bank
    ensures Reachable(t) && Stuck(t, id)
  {
    t := AfterUpload(s, user, doc, meta, id);
    t := AtNotes(t, id, user, doc, Uploaded, PENDING);
    t := Died(t, id, user, doc, Uploaded, PENDING, 2);
  }
}
