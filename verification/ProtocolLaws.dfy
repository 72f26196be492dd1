/** What users see of the protocol: what an upload writes, what a run leaves, and what each state answers. */
module ProtocolLaws {
  import opened Wrappers
  import opened StudyTypes
  import opened UserRows
  import opened Protocol
  import opened ProtocolInvariants
  import opened ProtocolTheorems
  import opened ProtocolFrames
  import opened ProtocolHealing

  /** Who asks for a record that is there gets the answer of its status, and nobody else gets anything. */
  lemma {:induction false} RecordAnswers(s: State, id: SessionId, user: Option<UserId>, rowFault: Fault,
                                         bankFault: Fault)
    requires Reachable(s) && id in s.store
    ensures var answer := GetResult(s, id, user, rowFault, bankFault);
            if s.store[id].user != user then answer == Forbidden
            else match s.store[id].status
                 case Uploaded => answer == NotStarted
                 case Processing => answer == NotReady
                 case Failed => answer == GenerationFailed
                 case Complete => s.store[id].payload.Study? && answer == Served(s.store[id].payload.content)
  {
    ContentProvenance(s);
  }

  /**
   * Without a record a guest is told not found; a user gets the bank's content for his own row, if all
   * answers come.
   */
  lemma {:induction false} MissAnswers(s: State, id: SessionId, user: Option<UserId>, rowFault: Fault, bankFault: Fault)
    requires id !in s.store
    ensures var answer := GetResult(s, id, user, rowFault, bankFault);
            answer == NotFound
            || (user.Some? && rowFault == Up && bankFault == Up && Owns(s.rows, user.value, id)
                && s.rows[id].hash.Some? && s.rows[id].hash.value in s.bank
                && answer == Served(s.bank[s.rows[id].hash.value]))
    ensures user.Some? && rowFault == Up && bankFault == Up && Owns(s.rows, user.value, id)
            && s.rows[id].hash.Some? && s.rows[id].hash.value in s.bank
            ==> GetResult(s, id, user, rowFault, bankFault).Served?
  {
  }

  /** A generation can be started for what was uploaded or has failed, and for nothing else. */
  lemma {:induction false} StartsIff(s: State, id: SessionId)
    requires id !in s.tasks
    ensures Enabled(s, StartGeneration(id))
            <==> id in s.store && (s.store[id].status == Uploaded || s.store[id].status == Failed)
  {
  }

  // ------------------------------------------------------------------ uploads

  /** An upload that the table took: the owner's row for this PDF, with its metadata, pending if it is new. */
  lemma {:induction false} UploadWritesRow(s: State, user: UserId, doc: Document, meta: Meta,
                                           offered: SessionId, target: SessionId, fault: Fault)
    requires Enabled(s, UploadRow(Some(user), doc, meta, offered, target, fault))
    ensures var t := Apply(s, UploadRow(Some(user), doc, meta, offered, target, fault));
            && (fault == Lost ==> t.rows == s.rows)
            && (fault != Lost ==>
                  && target in t.rows && t.rows[target].user == user && t.rows[target].hash == Some(doc.hash)
                  && t.rows[target].meta == meta && (target !in s.rows ==> t.rows[target].status == PENDING))
            && t.uploads == s.uploads + multiset{Upload(if fault == Up then target else offered, Some(user), doc)}
  {
    UpsertTakesOver(s.rows, target, Row(user, Some(doc.hash), PENDING, meta));
  }

  /** A guest's upload leaves the table alone and goes under the id offered. */
  lemma {:induction false} GuestUpload(s: State, doc: Document, meta: Meta, offered: SessionId, target: SessionId,
                                       fault: Fault)
    requires Enabled(s, UploadRow(None, doc, meta, offered, target, fault))
    ensures var t := Apply(s, UploadRow(None, doc, meta, offered, target, fault));
            t.rows == s.rows && t.uploads == s.uploads + multiset{Upload(offered, None, doc)}
  {
  }

  /** The record of an upload: its owner, its hash and its parsed text, nothing of an earlier session. */
  lemma {:induction false} UploadSavesRecord(s: State, up: Upload)
    requires Enabled(s, UploadSave(up))
    ensures var t := Apply(s, UploadSave(up));
            && up.id in t.store && t.store[up.id] == Record(up.user, up.doc.hash, Uploaded, 0, Parsed(up.doc))
            && forall id | id != up.id :: Lookup(t.store, id) == Lookup(s.store, id)
  {
  }

  // ------------------------------------------------------------------- runs

  /** The four steps of a run that finds its document in the bank and its row in place. */
  function BankHit(id: SessionId): seq<Step> {
    [TaskRead(id), TaskCache(id, Up), TaskFinish(id), TaskFinishSync(id, Up)]
  }

  lemma {:induction false} Legal4(s: State, a: Step, b: Step, c: Step, d: Step)
    requires Enabled(s, a) && Enabled(Apply(s, a), b)
    requires Enabled(Apply(Apply(s, a), b), c) && Enabled(Apply(Apply(Apply(s, a), b), c), d)
    ensures Legal(s, [a, b, c, d]) && Exec(s, [a, b, c, d]) == Apply(Apply(Apply(Apply(s, a), b), c), d)
  {
    Legal3(Apply(s, a), b, c, d);
    ExecCons(s, a, [b, c, d]);
    assert [a] + [b, c, d] == [a, b, c, d];
  }

  /** What the bank holds for a document is what its next generation ends with, without generating anything. */
  lemma {:induction false} BankHitCompletes(s: State, id: SessionId, user: UserId)
    requires Reachable(s) && id in s.tasks && s.tasks[id].Scheduled?
    requires id in s.store && s.store[id].user == Some(user) && s.store[id].hash in s.bank && Owns(s.rows, user, id)
    ensures Legal(s, BankHit(id))
    ensures var t := Exec(s, BankHit(id));
            && CompleteFor(t, id, user) && ReadyFor(t, id, user) && id !in t.tasks && t.bank == s.bank
            && t.store[id].payload == Study(s.bank[s.store[id].hash])
  {
    var content := s.bank[s.store[id].hash];
    var a := DoTaskRead(s, id);
    var b := DoTaskCache(a, id, Up);
    var c := DoTaskFinish(b, id);
    assert Apply(s, TaskRead(id)) == a && Apply(a, TaskCache(id, Up)) == b && Apply(b, TaskFinish(id)) == c;
    assert b.tasks[id].pc == Finish(content, false);
    Legal4(s, TaskRead(id), TaskCache(id, Up), TaskFinish(id), TaskFinishSync(id, Up));
    assert Exec(s, BankHit(id)) == DoTaskFinishSync(c, id, Up);
  }

  /** A run that fails marks record and row as failed and keeps the parsed text, so that it can be started again. */
  lemma {:induction false} FailureIsMarked(s: State, id: SessionId, user: UserId)
    requires Reachable(s) && At(s, id, Fail) && id in s.store && s.store[id].user == Some(user)
             && Owns(s.rows, user, id)
    ensures Legal(s, [TaskFail(id), TaskFailSync(id, Up)])
    ensures var t := Exec(s, [TaskFail(id), TaskFailSync(id, Up)]);
            && id in t.store && t.store[id] == s.store[id].(status := Failed, progress := 0)
            && id in t.rows && t.rows[id].status == FAILED && id !in t.tasks
            && Enabled(t, StartGeneration(id)) && GetResult(t, id, Some(user), Up, Up) == GenerationFailed
  {
    AlwaysInv(s);
    OwnRecord(s, id);
    var a := DoTaskFail(s, id);
    assert Apply(s, TaskFail(id)) == a;
    Legal2(s, TaskFail(id), TaskFailSync(id, Up));
    assert Exec(s, [TaskFail(id), TaskFailSync(id, Up)]) == DoTaskFailSync(a, id, Up);
  }

  /** A finished run whose row update is not reported ends failed, with the result kept in the record. */
  lemma {:induction false} UnreportedSyncIsFailure(s: State, id: SessionId, user: UserId, content: Content,
                                                   generated: bool, fault: Fault)
    requires Reachable(s) && At(s, id, FinishSync(content, generated)) && id in s.store
             && s.store[id].user == Some(user)
    requires fault != Up || !Owns(s.rows, user, id)
    ensures Legal(s, [TaskFinishSync(id, fault), TaskRollback(id)])
    ensures var t := Exec(s, [TaskFinishSync(id, fault), TaskRollback(id)]);
            && id in t.store && t.store[id] == s.store[id].(status := Failed, progress := 0, payload := Study(content))
            && GetResult(t, id, Some(user), Up, Up) == GenerationFailed
  {
    AlwaysInv(s);
    OwnRecord(s, id);
    var a := DoTaskFinishSync(s, id, fault);
    assert Apply(s, TaskFinishSync(id, fault)) == a;
    Legal2(s, TaskFinishSync(id, fault), TaskRollback(id));
    assert Exec(s, [TaskFinishSync(id, fault), TaskRollback(id)]) == DoTaskRollback(a, id);
  }

  /** The progress marks rise, and stay below the hundred of a completed session. */
  lemma {:induction false} ProgressRises(i: nat, j: nat)
    requires i < j < |PROGRESS|
    ensures 0 < PROGRESS[i] < PROGRESS[j] < 100
  {
  }
}
