/** A generation whose exception escaped leaves its session processing. */
module ProtocolStuck {
  import opened Wrappers
  import opened StudyTypes
  import opened Protocol
  import opened ProtocolTheorems
  import opened ProtocolInvariants
  import opened ProtocolFrames

  /** The record reads processing and nobody works on it: start_generation refuses to start again. */
  predicate Stuck(s: State, id: SessionId) {
    id in s.store && s.store[id].status == Processing && id !in s.tasks
  }

  lemma {:induction false} NotItsMover(s: State, step: Step, id: SessionId)
    requires Enabled(s, step) && Stuck(s, id)
    ensures Mover(step) != Some(id)
  {
  }

  /** The exact exit: only a new upload, expiry or deletion of the record takes it out of this state. */
  lemma {:induction false} StuckUntilFreed(s: State, step: Step, id: SessionId)
    requires Enabled(s, step) && Stuck(s, id)
    ensures Stuck(Apply(s, step), id) <==> !Rewrites(step, id)
  {
    NotItsMover(s, step, id);
    Elsewhere(s, step, id);
    if Rewrites(step, id) {
      Rewritten(s, step, id);
    }
  }

  // ------------------------------------------------------------------ the entry

  /** Its generation is not on a leg that writes an outcome over a record still processing. */
  predicate Decided(s: State, id: SessionId) {
    Runs(s, id) && Outcome(s.tasks[id].pc) && id in s.store ==> s.store[id].status != Processing
  }

  lemma {:induction false} EndsDecided(s: State, step: Step, id: SessionId)
    requires Enabled(s, step) && Mover(step) == Some(id) && Decided(s, id) && !Stuck(s, id) && !step.TaskDie?
    ensures !Stuck(Apply(s, step), id)
  {
    match step
    case StartGeneration(x) => assert !Stuck(s.(tasks := s.tasks[id := Scheduled]), id);
    case TaskRead(x) => assert !Stuck(DoTaskRead(s, id), id);
    case TaskCache(x, fault) => assert !Stuck(DoTaskCache(s, id, fault), id);
    case TaskWork(x, succeeds, answer) => assert !Stuck(DoTaskWork(s, id, succeeds, answer), id);
    case TaskFail(x) => assert !Stuck(DoTaskFail(s, id), id);
    case TaskFailSync(x, fault) => assert !Stuck(DoTaskFailSync(s, id, fault), id);
    case TaskFinish(x) => assert !Stuck(DoTaskFinish(s, id), id);
    case TaskFinishSync(x, fault) => assert !Stuck(DoTaskFinishSync(s, id, fault), id);
    case TaskRollback(x) => assert !Stuck(DoTaskRollback(s, id), id);
    case TaskSaveBank(x, fault) => assert !Stuck(DoTaskSaveBank(s, id, fault), id);
  }

  /** The death of a generation while the record reads processing. */
  predicate Abandons(s: State, step: Step, id: SessionId) {
    match step
    case TaskDie(x) => x == id && id in s.store && s.store[id].status == Processing
    case _ => false
  }

  /** The exact entry: nothing but an escaped exception, or death, between the first mark and the outcome. */
  lemma {:induction false} StuckIff(s: State, step: Step, id: SessionId)
    requires Reachable(s) && Enabled(s, step) && !Stuck(s, id)
    ensures Stuck(Apply(s, step), id) <==> Abandons(s, step, id)
  {
    AlwaysInv(s);
    assert SessionInv(ViewOf(s, id));
    if Mover(step) != Some(id) {
      Elsewhere(s, step, id);
      if Rewrites(step, id) {
        Rewritten(s, step, id);
      }
    } else if step.TaskDie? {
      assert Apply(s, step) == DoTaskDie(s, id);
    } else {
      EndsDecided(s, step, id);
    }
  }

  /** No step of the run abandons this session. */
  predicate Attended(s: State, steps: seq<Step>, id: SessionId)
    requires Legal(s, steps)
    decreases |steps|
  {
    steps == [] || (!Abandons(s, steps[0], id) && Attended(Apply(s, steps[0]), steps[1..], id))
  }

  /** Over every run that abandons it nowhere, a session that reads processing has somebody working on it. */
  lemma {:induction false} ProcessingIsAttended(s: State, steps: seq<Step>, id: SessionId)
    requires Reachable(s) && !Stuck(s, id) && Legal(s, steps) && Attended(s, steps, id)
    ensures !Stuck(Exec(s, steps), id)
    decreases |steps|
  {
    if steps != [] {
      StuckIff(s, steps[0], id);
      ReachableStep(s, steps[0]);
      ProcessingIsAttended(Apply(s, steps[0]), steps[1..], id);
    }
  }

  // ------------------------------------------------------------------ meanwhile

  /** So however long it is polled, and whatever else runs, its owner is told that it is still in progress. */
  lemma {:induction false} StuckForever(s: State, steps: seq<Step>, id: SessionId, rowFault: Fault, bankFault: Fault)
    requires Legal(s, steps) && Stuck(s, id) && forall step | step in steps :: !Rewrites(step, id)
    ensures var t := Exec(s, steps);
            && Stuck(t, id) && !Enabled(t, StartGeneration(id))
            && GetResult(t, id, t.store[id].user, rowFault, bankFault) == NotReady
    decreases |steps|
  {
    if steps != [] {
      assert steps[0] in steps;
      StuckUntilFreed(s, steps[0], id);
      StuckForever(Apply(s, steps[0]), steps[1..], id, rowFault, bankFault);
    }
  }
}
