/** What the three stores promise together, in every reachable state and over whole runs. */
module ProtocolTheorems {
  import opened Wrappers
  import opened StudyTypes
  import opened UserRows
  import opened Protocol
  import opened ProtocolInvariants

  // ------------------------------------------------------------ runs

  lemma {:induction false} ExecAppend(s: State, steps: seq<Step>, step: Step)
    requires Legal(s, steps) && Enabled(Exec(s, steps), step)
    ensures Legal(s, steps + [step]) && Exec(s, steps + [step]) == Apply(Exec(s, steps), step)
    decreases |steps|
  {
    if steps == [] {
      assert [step][1..] == [];
    } else {
      ExecAppend(Apply(s, steps[0]), steps[1..], step);
      assert (steps + [step])[1..] == steps[1..] + [step];
    }
  }

  lemma {:induction false} ReachableStep(s: State, step: Step)
    requires Reachable(s) && Enabled(s, step)
    ensures Reachable(Apply(s, step))
  {
    var steps :| Legal(INIT, steps) && Exec(INIT, steps) == s;
    ExecAppend(INIT, steps, step);
  }

  // --------------------------------------------- completed records and ready rows

  predicate CompleteFor(s: State, id: SessionId, user: UserId) {
    id in s.store && s.store[id].status == Complete && s.store[id].user == Some(user)
  }

  predicate ReadyFor(s: State, id: SessionId, user: UserId) {
    Owns(s.rows, user, id) && s.rows[id].status == READY
  }

  /** The exception for a delete whose answer was lost is real: the record stays complete without any row. */
  lemma {:induction false} LostDeleteDisagrees(s: State, id: SessionId, user: UserId)
    requires Reachable(s) && CompleteFor(s, id, user) && ReadyFor(s, id, user)
    ensures var t := Apply(s, DeleteUserRow(user, id, Late));
            Reachable(t) && CompleteFor(t, id, user) && id !in t.rows && t.deletes == s.deletes
  {
    ReachableStep(s, DeleteUserRow(user, id, Late));
  }

  /** So is the one for a finalize that dies: the record stays complete over a row that is not ready. */
  lemma {:induction false} DeadFinalizeDisagrees(s: State, id: SessionId, user: UserId)
    requires Reachable(s) && CompleteFor(s, id, user) && !ReadyFor(s, id, user) && Finishing(s, id)
    ensures var t := Apply(s, TaskDie(id));
            Reachable(t) && CompleteFor(t, id, user) && !ReadyFor(t, id, user) && id !in t.tasks
  {
    ReachableStep(s, TaskDie(id));
  }

  // ------------------------------------------------------------ provenance

  predicate ContentOf(hash: Hash, content: Content) {
    content.source.hash == hash && content.source.hasText
  }

  /** Completed records and bank entries hold content generated from a document with that very hash. */
  lemma {:induction false} ContentProvenance(s: State)
    requires Reachable(s)
    ensures forall id | id in s.store && s.store[id].status == Complete ::
              s.store[id].payload.Study? && ContentOf(s.store[id].hash, s.store[id].payload.content)
    ensures forall hash | hash in s.bank :: ContentOf(hash, s.bank[hash])
  {
    AlwaysInv(s);
    forall id | id in s.store && s.store[id].status == Complete
      ensures s.store[id].payload.Study? && ContentOf(s.store[id].hash, s.store[id].payload.content)
    {
      assert SessionInv(ViewOf(s, id));
    }
    forall hash | hash in s.bank ensures ContentOf(hash, s.bank[hash]) {
      assert PayloadOf(hash, Study(s.bank[hash]));
    }
  }

  lemma {:induction false} BankStep(s: State, step: Step)
    requires Enabled(s, step)
    ensures forall hash | hash in s.bank :: hash in Apply(s, step).bank && Apply(s, step).bank[hash] == s.bank[hash]
  {
  }

  /** The bank is write-once: no run changes or drops an entry. */
  lemma {:induction false} BankWriteOnce(s: State, steps: seq<Step>, hash: Hash)
    requires Legal(s, steps) && hash in s.bank
    ensures hash in Exec(s, steps).bank && Exec(s, steps).bank[hash] == s.bank[hash]
    decreases |steps|
  {
    if steps != [] {
      BankStep(s, steps[0]);
      BankWriteOnce(Apply(s, steps[0]), steps[1..], hash);
    }
  }

  /** Whatever is generated comes from the parsed text of the session's own document. */
  lemma {:induction false} GeneratesFromParsedText(s: State, id: SessionId)
    requires Reachable(s) && Runs(s, id) && s.tasks[id].pc.Work?
    ensures var rec := s.tasks[id].rec;
            && rec.payload.Parsed? && rec.payload.doc.hasText && rec.payload.doc.hash == rec.hash
            && id in s.issued && s.issued[id] == Origin(rec.user, Some(rec.hash))
  {
    AlwaysInv(s);
    assert SessionInv(ViewOf(s, id));
  }

  // ---------------------------------------------------------- row life cycle

  /**
   * How a table may change over a run: rows keep owner and hash, never go back to pending, and an id
   * issued before never gets a row it had not.
   */
  ghost predicate RowsEvolve(s: State, t: State) {
    && s.issued.Keys <= t.issued.Keys
    && (forall id | id in s.rows && id in t.rows ::
          && t.rows[id].user == s.rows[id].user && t.rows[id].hash == s.rows[id].hash
          && (s.rows[id].status != PENDING ==> t.rows[id].status != PENDING))
    && (forall id | id in t.rows && id in s.issued :: id in s.rows)
  }

  lemma {:induction false} UploadEvolves(s: State, uploader: Option<UserId>, doc: Document, meta: Meta,
                                         offered: SessionId, target: SessionId, fault: Fault)
    requires Inv(s) && Enabled(s, UploadRow(uploader, doc, meta, offered, target, fault))
    ensures RowsEvolve(s, DoUploadRow(s, uploader, doc, meta, offered, target, fault))
  {
    FreshId(s, offered);
    if uploader.Some? {
      UpsertKeeps(s.rows, offered, target, Row(uploader.value, Some(doc.hash), PENDING, meta));
    }
  }

  lemma {:induction false} InsertEvolves(s: State, id: SessionId, row: Row)
    requires Inv(s) && Enabled(s, InsertRow(id, row))
    ensures RowsEvolve(s, DoInsertRow(s, id, row))
  {
    FreshId(s, id);
  }

  predicate Advanced(before: Row, after: Row) {
    after == before || (after == before.(status := after.status) && after.status != PENDING)
  }

  predicate RowsAdvance(rows: Rows, after: Rows) {
    forall id | id in after :: id in rows && Advanced(rows[id], after[id])
  }

  lemma {:induction false} StatementsAdvance(rows: Rows, user: UserId, id: SessionId, status: RowStatus,
                                             ids: set<SessionId>)
    requires status != PENDING
    ensures RowsAdvance(rows, SetStatus(rows, user, id, status))
    ensures RowsAdvance(rows, DeleteRow(rows, user, id))
    ensures RowsAdvance(rows, Promote(rows, user, ids))
    ensures RowsAdvance(rows, rows)
  {
  }

  lemma {:induction false} AdvanceEvolves(s: State, t: State)
    requires t.issued == s.issued && RowsAdvance(s.rows, t.rows)
    ensures RowsEvolve(s, t)
  {
  }

  lemma {:induction false} FailSyncEvolves(s: State, id: SessionId, fault: Fault)
    requires Enabled(s, TaskFailSync(id, fault))
    ensures RowsEvolve(s, DoTaskFailSync(s, id, fault))
  {
    var user := s.tasks[id].rec.user;
    StatementsAdvance(s.rows, if user.Some? then user.value else 0, id, FAILED, {});
    AdvanceEvolves(s, DoTaskFailSync(s, id, fault));
  }

  lemma {:induction false} FinishSyncEvolves(s: State, id: SessionId, fault: Fault)
    requires Enabled(s, TaskFinishSync(id, fault))
    ensures RowsEvolve(s, DoTaskFinishSync(s, id, fault))
  {
    var user := s.tasks[id].rec.user;
    StatementsAdvance(s.rows, if user.Some? then user.value else 0, id, READY, {});
    AdvanceEvolves(s, DoTaskFinishSync(s, id, fault));
  }

  lemma {:induction false} DeleteEvolves(s: State, user: UserId, id: SessionId, fault: Fault)
    ensures RowsEvolve(s, DoDeleteUserRow(s, user, id, fault))
  {
    StatementsAdvance(s.rows, user, id, READY, {});
    AdvanceEvolves(s, DoDeleteUserRow(s, user, id, fault));
  }

  lemma {:induction false} HealWriteEvolves(s: State, heal: Heal, fault: Fault)
    requires Enabled(s, HealWrite(heal, fault))
    ensures RowsEvolve(s, DoHealWrite(s, heal, fault))
  {
    StatementsAdvance(s.rows, heal.user, 0, READY, heal.ready.value);
    AdvanceEvolves(s, DoHealWrite(s, heal, fault));
  }

  predicate SameRows(s: State, t: State) {
    t.issued == s.issued && t.rows == s.rows
  }

  /** The steps of a generation that leave the table alone. */
  predicate WorksApart(step: Step) {
    match step
    case TaskCache(_, _) => true
    case TaskWork(_, _, _) => true
    case TaskFail(_) => true
    case TaskFinish(_) => true
    case TaskRollback(_) => true
    case TaskSaveBank(_, _) => true
    case _ => false
  }

  lemma {:induction false} WorkPlain(s: State, step: Step)
    requires Enabled(s, step) && WorksApart(step)
    ensures SameRows(s, Apply(s, step))
  {
    match step
    case TaskCache(id, fault) => assert SameRows(s, DoTaskCache(s, id, fault));
    case TaskWork(id, succeeds, answer) => assert SameRows(s, DoTaskWork(s, id, succeeds, answer));
    case TaskFail(id) => assert SameRows(s, DoTaskFail(s, id));
    case TaskFinish(id) => assert SameRows(s, DoTaskFinish(s, id));
    case TaskRollback(id) => assert SameRows(s, DoTaskRollback(s, id));
    case TaskSaveBank(id, fault) => assert SameRows(s, DoTaskSaveBank(s, id, fault));
  }

  /** The steps that only write or drop a record. */
  predicate StoresApart(step: Step) {
    match step
    case UploadSave(_) => true
    case DeleteRecord(_, _) => true
    case Forget(_) => true
    case _ => false
  }

  lemma {:induction false} StorePlain(s: State, step: Step)
    requires Enabled(s, step) && StoresApart(step)
    ensures SameRows(s, Apply(s, step))
  {
    match step
    case UploadSave(up) => assert SameRows(s, DoUploadSave(s, up));
    case DeleteRecord(id, done) => assert SameRows(s, DoDeleteRecord(s, id, done));
    case Forget(id) => assert SameRows(s, DoForget(s, id));
  }

  /** All other steps that leave the table alone. */
  predicate Untabled(step: Step) {
    match step
    case StartGeneration(_) => true
    case TaskRead(_) => true
    case TaskDie(_) => true
    case HealRead(_) => true
    case HealBank(_, _) => true
    case _ => false
  }

  lemma {:induction false} UntabledPlain(s: State, step: Step)
    requires Enabled(s, step) && Untabled(step)
    ensures SameRows(s, Apply(s, step))
  {
    match step
    case StartGeneration(id) =>
    case TaskRead(id) => assert SameRows(s, DoTaskRead(s, id));
    case TaskDie(id) => assert SameRows(s, DoTaskDie(s, id));
    case HealRead(user) => HealPlain(s, user, Heal(user, map[], None), Up);
    case HealBank(heal, fault) => HealPlain(s, heal.user, heal, fault);
  }

  lemma {:induction false} HealPlain(s: State, user: UserId, heal: Heal, fault: Fault)
    ensures SameRows(s, DoHealRead(s, user)) && SameRows(s, DoHealBank(s, heal, fault))
  {
  }

  lemma {:induction false} PlainRows(s: State, step: Step)
    requires Enabled(s, step) && (WorksApart(step) || StoresApart(step) || Untabled(step))
    ensures SameRows(s, Apply(s, step))
  {
    if WorksApart(step) {
      WorkPlain(s, step);
    } else if StoresApart(step) {
      StorePlain(s, step);
    } else {
      UntabledPlain(s, step);
    }
  }

  lemma {:induction false} PlainEvolves(s: State, step: Step)
    requires Enabled(s, step) && (WorksApart(step) || StoresApart(step) || Untabled(step))
    ensures RowsEvolve(s, Apply(s, step))
  {
    PlainRows(s, step);
    StatementsAdvance(s.rows, 0, 0, READY, {});
    AdvanceEvolves(s, Apply(s, step));
  }

  /** No step but an upload and an insert creates rows, and none but the upsert offers pending. */
  lemma {:induction false} RowsEvolveStep(s: State, step: Step)
    requires Inv(s) && Enabled(s, step)
    ensures RowsEvolve(s, Apply(s, step))
  {
    match step
    case UploadRow(uploader, doc, meta, offered, target, fault) =>
      UploadEvolves(s, uploader, doc, meta, offered, target, fault);
    case InsertRow(id, row) => InsertEvolves(s, id, row);
    case TaskFailSync(id, fault) => FailSyncEvolves(s, id, fault);
    case TaskFinishSync(id, fault) => FinishSyncEvolves(s, id, fault);
    case DeleteUserRow(user, id, fault) => DeleteEvolves(s, user, id, fault);
    case HealWrite(heal, fault) => HealWriteEvolves(s, heal, fault);
    case _ => PlainEvolves(s, step);
  }

  /** Over every run a row that left pending stays out of it, and a deleted row never comes back. */
  lemma {:induction false} RowLifeCycle(s: State, steps: seq<Step>)
    requires Inv(s) && Legal(s, steps)
    ensures RowsEvolve(s, Exec(s, steps))
    decreases |steps|
  {
    if steps != [] {
      var m := Apply(s, steps[0]);
      StepKeeps(s, steps[0]);
      RowsEvolveStep(s, steps[0]);
      RowLifeCycle(m, steps[1..]);
      RowsIssued(s);
      var t := Exec(s, steps);
      forall id | id in s.rows && id in t.rows ensures id in m.rows {
        assert id in s.issued;
      }
    }
  }

  lemma {:induction false} RowsIssued(s: State)
    requires Inv(s)
    ensures s.rows.Keys <= s.issued.Keys
  {
    forall id | id in s.rows ensures id in s.issued {
      assert SessionInv(ViewOf(s, id));
    }
  }

  /** Rows and records of one id always belong to the same owner and document, and keys stay unique. */
  lemma {:induction false} OneOwnerOneDocument(s: State, id: SessionId)
    requires Reachable(s)
    ensures UniqueKeys(s.rows)
    ensures id in s.store && id in s.rows ==>
              s.store[id].user == Some(s.rows[id].user) && s.rows[id].hash == Some(s.store[id].hash)
  {
    AlwaysInv(s);
    assert SessionInv(ViewOf(s, id));
  }

  /** Uploading a PDF the user already has a row for reuses that row's id and never downgrades it. */
  lemma {:induction false} ReuploadReusesId(s: State, user: UserId, doc: Document, meta: Meta,
                                            offered: SessionId, target: SessionId, id: SessionId)
    requires Reachable(s) && id in s.rows && SameKey(s.rows[id], user, Some(doc.hash))
    requires Enabled(s, UploadRow(Some(user), doc, meta, offered, target, Up))
    ensures var t := Apply(s, UploadRow(Some(user), doc, meta, offered, target, Up));
            && target == id
            && t.rows.Keys == s.rows.Keys
            && Upload(id, Some(user), doc) in t.uploads
            && t.rows[id].status == s.rows[id].status
            && t.rows[id].meta == meta
  {
    AlwaysInv(s);
    assert !KeyFree(s.rows, user, Some(doc.hash));
    assert SameKey(s.rows[target], s.rows[id].user, s.rows[id].hash);
  }

  // -------------------------------------------------------------- results

  datatype Answer = Served(content: Content) | NotReady | NotStarted | GenerationFailed | Forbidden | NotFound | Corrupt

  /** _load_result_from_db: the row's hash, then the bank. */
  function FromDatabase(s: State, id: SessionId, user: UserId, rowFault: Fault, bankFault: Fault): Answer {
    if rowFault != Up || bankFault != Up || !Owns(s.rows, user, id) || s.rows[id].hash.None?
       || s.rows[id].hash.value !in s.bank
    then NotFound
    else Served(s.bank[s.rows[id].hash.value])
  }

  function Fallback(s: State, id: SessionId, user: Option<UserId>, rowFault: Fault, bankFault: Fault): Answer {
    if user.None? then NotFound else FromDatabase(s, id, user.value, rowFault, bankFault)
  }

  function GetResult(s: State, id: SessionId, user: Option<UserId>, rowFault: Fault, bankFault: Fault): Answer {
    if id !in s.store then Fallback(s, id, user, rowFault, bankFault)
    else
      var rec := s.store[id];
      if rec.user != user then Forbidden
      else match rec.status
        case Processing => NotReady
        case Failed => GenerationFailed
        case Uploaded => NotStarted
        case Complete =>
          match rec.payload
          case Study(content) => Served(content)
          case Parsed(_) => Corrupt
          case Nothing => Fallback(s, id, user, rowFault, bankFault)
  }

  /**
   * Whatever the faults, a result served for a session is content of the session's own document, served
   * to the session's own user; and a completed record never fails to parse.
   */
  lemma {:induction false} ServesOwnContent(s: State, id: SessionId, user: Option<UserId>, rowFault: Fault,
                                            bankFault: Fault)
    requires Reachable(s)
    ensures var a := GetResult(s, id, user, rowFault, bankFault);
            && a != Corrupt
            && (a.Served? ==> id in s.issued && s.issued[id] == Origin(user, Some(a.content.source.hash)))
  {
    AlwaysInv(s);
    ContentProvenance(s);
    assert SessionInv(ViewOf(s, id));
  }
}
