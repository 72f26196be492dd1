/** When a completed record and its ready row agree, over every run and exactly step by step. */
module ProtocolAgreement {
  import opened Wrappers
  import opened StudyTypes
  import opened UserRows
  import opened Protocol
  import opened ProtocolInvariants
  import opened ProtocolTheorems
  import opened ProtocolFrames

  /** A completed record without its owner's ready row, with no finalize or delete half-way that accounts for it. */
  predicate Disagrees(s: State, id: SessionId, user: UserId) {
    CompleteFor(s, id, user) && !Finishing(s, id) && id !in s.deletes && !ReadyFor(s, id, user)
  }

  /** The three ways an operation over two stores is cut short between its halves and tears them apart. */
  predicate Tears(s: State, step: Step, id: SessionId, user: UserId) {
    CompleteFor(s, id, user) &&
    match step
    case TaskDie(x) => x == id && Finishing(s, id) && id !in s.deletes && !ReadyFor(s, id, user)
    case DeleteUserRow(u, x, fault) =>
      x == id && fault == Late && Owns(s.rows, u, id) && !Finishing(s, id) && id !in s.deletes
    case DeleteRecord(x, done) => x == id && !done && id in s.deletes && !Finishing(s, id) && !ReadyFor(s, id, user)
    case _ => false
  }

  // ------------------------------------------------------ the session's own generation

  lemma {:induction false} EarlyLegs(s: State, step: Step, id: SessionId, user: UserId)
    requires Enabled(s, step) && Mover(step) == Some(id) && !OnWay(s, id)
    requires id in s.tasks && id in s.store ==> s.store[id].status != Complete
    ensures !Disagrees(Apply(s, step), id, user)
  {
    match step
    case StartGeneration(x) => assert !CompleteFor(s.(tasks := s.tasks[id := Scheduled]), id, user);
    case TaskRead(x) => assert !CompleteFor(DoTaskRead(s, id), id, user);
    case TaskCache(x, fault) => assert !CompleteFor(DoTaskCache(s, id, fault), id, user);
    case TaskWork(x, succeeds, answer) => assert !CompleteFor(DoTaskWork(s, id, succeeds, answer), id, user);
    case TaskFail(x) => assert !CompleteFor(DoTaskFail(s, id), id, user);
    case TaskFailSync(x, fault) => assert !CompleteFor(DoTaskFailSync(s, id, fault), id, user);
    case TaskFinish(x) => assert !Disagrees(DoTaskFinish(s, id), id, user);
    case TaskDie(x) => assert !CompleteFor(DoTaskDie(s, id), id, user);
  }

  lemma {:induction false} SyncLeg(s: State, id: SessionId, user: UserId, fault: Fault)
    requires Inv(s) && Enabled(s, TaskFinishSync(id, fault))
    ensures !Disagrees(DoTaskFinishSync(s, id, fault), id, user)
  {
    if id in s.store {
      OwnRecord(s, id);
    }
  }

  lemma {:induction false} LastLegs(s: State, step: Step, id: SessionId, user: UserId)
    requires Inv(s) && Enabled(s, step) && Mover(step) == Some(id) && OnWay(s, id) && !Disagrees(s, id, user)
    ensures Disagrees(Apply(s, step), id, user) <==> Tears(s, step, id, user)
  {
    match step
    case TaskFinishSync(x, fault) => SyncLeg(s, id, user, fault);
    case TaskRollback(x) => assert !Disagrees(DoTaskRollback(s, id), id, user);
    case TaskSaveBank(x, fault) => assert !Disagrees(DoTaskSaveBank(s, id, fault), id, user);
    case TaskDie(x) => assert Disagrees(DoTaskDie(s, id), id, user) <==> Tears(s, step, id, user);
    case StartGeneration(x) =>
  }

  lemma {:induction false} OwnLegs(s: State, step: Step, id: SessionId, user: UserId)
    requires Inv(s) && Enabled(s, step) && Mover(step) == Some(id) && !Disagrees(s, id, user)
    ensures Disagrees(Apply(s, step), id, user) <==> Tears(s, step, id, user)
  {
    if OnWay(s, id) {
      LastLegs(s, step, id, user);
    } else {
      if id in s.tasks && id in s.store && s.store[id].status == Complete {
        CompleteIsOnWay(s, id);
      }
      EarlyLegs(s, step, id, user);
    }
  }

  // ------------------------------------------------------------------- other steps

  /** The steps of the two-step delete of this session. */
  predicate DeletesIt(step: Step, id: SessionId) {
    match step
    case DeleteUserRow(_, x, _) => x == id
    case DeleteRecord(x, _) => x == id
    case _ => false
  }

  lemma {:induction false} DeletesElsewhere(s: State, step: Step, id: SessionId)
    requires Enabled(s, step) && !DeletesIt(step, id)
    ensures id in Apply(s, step).deletes <==> id in s.deletes
  {
    match step
    case DeleteUserRow(u, x, fault) => assert Apply(s, step) == DoDeleteUserRow(s, u, x, fault);
    case DeleteRecord(x, done) => assert Apply(s, step) == DoDeleteRecord(s, x, done);
    case TaskCache(x, fault) => assert DoTaskCache(s, x, fault).deletes == s.deletes;
    case TaskWork(x, succeeds, answer) => assert DoTaskWork(s, x, succeeds, answer).deletes == s.deletes;
    case TaskFail(x) => assert DoTaskFail(s, x).deletes == s.deletes;
    case TaskFailSync(x, fault) => assert DoTaskFailSync(s, x, fault).deletes == s.deletes;
    case TaskFinish(x) => assert DoTaskFinish(s, x).deletes == s.deletes;
    case TaskFinishSync(x, fault) => assert DoTaskFinishSync(s, x, fault).deletes == s.deletes;
    case TaskRollback(x) => assert DoTaskRollback(s, x).deletes == s.deletes;
    case TaskSaveBank(x, fault) => assert DoTaskSaveBank(s, x, fault).deletes == s.deletes;
    case _ =>
  }

  lemma {:induction false} DeleteLegs(s: State, step: Step, id: SessionId, user: UserId)
    requires Enabled(s, step) && DeletesIt(step, id) && !Disagrees(s, id, user)
    ensures Disagrees(Apply(s, step), id, user) <==> Tears(s, step, id, user)
  {
    match step
    case DeleteUserRow(u, x, fault) => assert Apply(s, step) == DoDeleteUserRow(s, u, id, fault);
    case DeleteRecord(x, done) => assert Apply(s, step) == DoDeleteRecord(s, id, done);
  }

  lemma {:induction false} StillAgrees(s: State, t: State, id: SessionId, user: UserId)
    requires !Disagrees(s, id, user) && SameTask(s, t, id) && RowStays(s, t, id)
    requires SameRecord(s, t, id) && (id in t.deletes <==> id in s.deletes)
    ensures !Disagrees(t, id, user)
  {
  }

  lemma {:induction false} OtherLegs(s: State, step: Step, id: SessionId, user: UserId)
    requires Inv(s) && Enabled(s, step) && Mover(step) != Some(id) && !DeletesIt(step, id) && !Disagrees(s, id, user)
    ensures !Disagrees(Apply(s, step), id, user)
  {
    Elsewhere(s, step, id);
    if Rewrites(step, id) {
      Rewritten(s, step, id);
    } else {
      RowElsewhere(s, step, id);
      DeletesElsewhere(s, step, id);
      StillAgrees(s, Apply(s, step), id, user);
    }
  }

  // ------------------------------------------------------------------- results

  /**
   * The exact condition: from any reachable state, a step leaves a completed record without its ready row
   * and without excuse if and only if it kills a generation inside its finalize, loses the answer of a
   * delete, or fails a delete's second half, while nothing else accounts for the difference.
   */
  lemma {:induction false} AgreementBreaksIff(s: State, step: Step, id: SessionId, user: UserId)
    requires Reachable(s) && Enabled(s, step) && !Disagrees(s, id, user)
    ensures Disagrees(Apply(s, step), id, user) <==> Tears(s, step, id, user)
  {
    AlwaysInv(s);
    if Mover(step) == Some(id) {
      OwnLegs(s, step, id, user);
    } else if DeletesIt(step, id) {
      DeleteLegs(s, step, id, user);
    } else {
      OtherLegs(s, step, id, user);
    }
  }

  /** No step of the run tears this session apart. */
  predicate Untorn(s: State, steps: seq<Step>, id: SessionId, user: UserId)
    requires Legal(s, steps)
    decreases |steps|
  {
    steps == [] || (!Tears(s, steps[0], id, user) && Untorn(Apply(s, steps[0]), steps[1..], id, user))
  }

  lemma {:induction false} UntornRun(s: State, steps: seq<Step>, id: SessionId, user: UserId)
    requires Reachable(s) && !Disagrees(s, id, user) && Legal(s, steps) && Untorn(s, steps, id, user)
    ensures Reachable(Exec(s, steps)) && !Disagrees(Exec(s, steps), id, user)
    decreases |steps|
  {
    if steps != [] {
      AgreementBreaksIff(s, steps[0], id, user);
      ReachableStep(s, steps[0]);
      UntornRun(Apply(s, steps[0]), steps[1..], id, user);
    }
  }

  /**
   * Over every interleaving of all operations under any faults that tears this session nowhere: a record
   * that reads complete has a ready row of its owner, for the same document, except while its finalize or
   * its delete is half-way.
   */
  lemma {:induction false} CrossStoreAgreement(steps: seq<Step>, id: SessionId, user: UserId)
    requires Legal(INIT, steps) && Untorn(INIT, steps, id, user)
    requires var s := Exec(INIT, steps); CompleteFor(s, id, user) && !Finishing(s, id) && id !in s.deletes
    ensures var s := Exec(INIT, steps);
            ReadyFor(s, id, user) && s.rows[id].hash == Some(s.store[id].hash)
  {
    assert Legal(INIT, []) && Exec(INIT, []) == INIT;
    UntornRun(INIT, steps, id, user);
    OneOwnerOneDocument(Exec(INIT, steps), id);
  }

  // --------------------------------------------------------- runs without interruptions

  /** The steps that interrupt an operation over two stores, whether or not that tears anything. */
  predicate CutsShort(s: State, step: Step) {
    match step
    case TaskDie(id) => Finishing(s, id)
    case DeleteUserRow(user, id, fault) => fault == Late && Owns(s.rows, user, id)
    case DeleteRecord(_, done) => !done
    case _ => false
  }

  predicate Uncut(s: State, steps: seq<Step>)
    requires Legal(s, steps)
    decreases |steps|
  {
    steps == [] || (!CutsShort(s, steps[0]) && Uncut(Apply(s, steps[0]), steps[1..]))
  }

  lemma {:induction false} UncutIsUntorn(s: State, steps: seq<Step>, id: SessionId, user: UserId)
    requires Legal(s, steps) && Uncut(s, steps)
    ensures Untorn(s, steps, id, user)
    decreases |steps|
  {
    if steps != [] {
      UncutIsUntorn(Apply(s, steps[0]), steps[1..], id, user);
    }
  }

  /** Nothing interrupted and nothing in flight: every completed record has its ready row. */
  lemma {:induction false} QuietAgreement(steps: seq<Step>)
    requires Legal(INIT, steps) && Uncut(INIT, steps)
    requires Exec(INIT, steps).tasks == map[] && Exec(INIT, steps).deletes == {}
    ensures var s := Exec(INIT, steps);
            forall id, user :: CompleteFor(s, id, user) ==> ReadyFor(s, id, user)
  {
    var s := Exec(INIT, steps);
    forall id, user | CompleteFor(s, id, user) ensures ReadyFor(s, id, user) {
      UncutIsUntorn(INIT, steps, id, user);
      CrossStoreAgreement(steps, id, user);
    }
  }
}
