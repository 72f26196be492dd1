/** Where a generation's content comes from, and when a completed result outlives its record. */
module ProtocolBank {
  import opened Wrappers
  import opened StudyTypes
  import opened UserRows
  import opened Protocol
  import opened ProtocolInvariants
  import opened ProtocolTheorems
  import opened ProtocolFrames

  // -------------------------------------------------------- sources of content

  /** Generated from the parsed text the record held at the start, or taken from the bank. */
  predicate From(bank: map<Hash, Content>, rec: Record, content: Content, generated: bool) {
    if generated then rec.payload == Parsed(content.source)
    else rec.hash in bank && bank[rec.hash] == content
  }

  predicate PcSourced(bank: map<Hash, Content>, rec: Record, pc: Pc) {
    match pc
    case Finish(content, generated) => From(bank, rec, content, generated)
    case FinishSync(content, generated) => From(bank, rec, content, generated)
    case Rollback(content, generated) => From(bank, rec, content, generated)
    case SaveBank(content) => From(bank, rec, content, true)
    case Work(_) => rec.payload.Parsed?
    case _ => true
  }

  predicate Sourced(s: State, id: SessionId) {
    Runs(s, id) ==> PcSourced(s.bank, s.tasks[id].rec, s.tasks[id].pc)
  }

  predicate BankGrows(s: State, t: State) {
    forall hash | hash in s.bank :: hash in t.bank && t.bank[hash] == s.bank[hash]
  }

  lemma {:induction false} SourcedStill(s: State, t: State, id: SessionId)
    requires Sourced(s, id) && SameTask(s, t, id) && BankGrows(s, t)
    ensures Sourced(t, id)
  {
  }

  lemma {:induction false} MoverSourced(s: State, step: Step, id: SessionId)
    requires Enabled(s, step) && Sourced(s, id) && Mover(step) == Some(id)
    ensures Sourced(Apply(s, step), id)
  {
    match step
    case TaskRead(x) => assert Sourced(DoTaskRead(s, id), id);
    case TaskCache(x, fault) => assert Sourced(DoTaskCache(s, id, fault), id);
    case TaskWork(x, succeeds, answer) => assert Sourced(DoTaskWork(s, id, succeeds, answer), id);
    case TaskFail(x) => assert Sourced(DoTaskFail(s, id), id);
    case TaskFailSync(x, fault) => assert Sourced(DoTaskFailSync(s, id, fault), id);
    case TaskFinish(x) => assert Sourced(DoTaskFinish(s, id), id);
    case TaskFinishSync(x, fault) => assert Sourced(DoTaskFinishSync(s, id, fault), id);
    case TaskRollback(x) => assert Sourced(DoTaskRollback(s, id), id);
    case TaskSaveBank(x, fault) => assert Sourced(DoTaskSaveBank(s, id, fault), id);
    case _ =>
  }

  lemma {:induction false} SourcedStep(s: State, step: Step, id: SessionId)
    requires Enabled(s, step) && Sourced(s, id)
    ensures Sourced(Apply(s, step), id)
  {
    if Mover(step) == Some(id) {
      MoverSourced(s, step, id);
    } else {
      BankStep(s, step);
      Elsewhere(s, step, id);
      SourcedStill(s, Apply(s, step), id);
    }
  }

  lemma {:induction false} SourcedRun(s: State, steps: seq<Step>, id: SessionId)
    requires Legal(s, steps) && Sourced(s, id)
    ensures Sourced(Exec(s, steps), id)
    decreases |steps|
  {
    if steps != [] {
      SourcedStep(s, steps[0], id);
      SourcedRun(Apply(s, steps[0]), steps[1..], id);
    }
  }

  lemma {:induction false} AlwaysSourced(s: State, id: SessionId)
    requires Reachable(s)
    ensures Sourced(s, id)
  {
    var steps :| Legal(INIT, steps) && Exec(INIT, steps) == s;
    SourcedRun(INIT, steps, id);
  }

  /**
   * In every reachable state: a generation that began on anything but parsed text never generates and never
   * offers content to the bank; whatever it finishes with is the bank's content for its document.
   */
  lemma {:induction false} RetryTakesBankOrFails(s: State, id: SessionId)
    requires Reachable(s) && Runs(s, id) && !s.tasks[id].rec.payload.Parsed?
    ensures var rec, pc := s.tasks[id].rec, s.tasks[id].pc;
            && !pc.Work? && !pc.SaveBank?
            && (pc.Finish? || pc.FinishSync? || pc.Rollback? ==>
                  !pc.generated && rec.hash in s.bank && s.bank[rec.hash] == pc.content)
  {
    AlwaysSourced(s, id);
  }

  // ------------------------------------------------- results that outlive records

  /** A completed record whose document nobody has banked. */
  predicate Bare(s: State, id: SessionId) {
    id in s.store && s.store[id].status == Complete && s.store[id].hash !in s.bank
  }

  /** A completed session, not on its way to the bank, whose content only its record holds. */
  predicate Unbanked(s: State, id: SessionId) {
    Bare(s, id) && !OnWay(s, id)
  }

  /** The bank save of a completed session is lost, or the process dies on the way to it. */
  predicate LosesResult(s: State, step: Step, id: SessionId) {
    match step
    case TaskSaveBank(x, fault) => x == id && fault == Lost && Bare(s, id)
    case TaskDie(x) => x == id && OnWay(s, id) && Bare(s, id)
    case _ => false
  }

  lemma {:induction false} StillBanked(s: State, t: State, id: SessionId)
    requires !Unbanked(s, id) && BankGrows(s, t) && SameSession(s, t, id)
    ensures !Unbanked(t, id)
  {
  }

  /** What the steps of a session's own generation can rely on. */
  predicate Ready(s: State, id: SessionId) {
    && Sourced(s, id) && !Unbanked(s, id)
    && (id in s.tasks && id in s.store && s.store[id].status == Complete ==> OnWay(s, id))
    && (Runs(s, id) && id in s.store ==> s.store[id].hash == s.tasks[id].rec.hash)
  }

  lemma {:induction false} EarlyLegs(s: State, step: Step, id: SessionId)
    requires Enabled(s, step) && Mover(step) == Some(id) && Ready(s, id) && !OnWay(s, id)
    ensures !Unbanked(Apply(s, step), id)
  {
    match step
    case StartGeneration(x) => assert !Unbanked(s.(tasks := s.tasks[id := Scheduled]), id);
    case TaskRead(x) => assert !Unbanked(DoTaskRead(s, id), id);
    case TaskCache(x, fault) => assert !Unbanked(DoTaskCache(s, id, fault), id);
    case TaskWork(x, succeeds, answer) => assert !Unbanked(DoTaskWork(s, id, succeeds, answer), id);
    case TaskFail(x) => assert !Unbanked(DoTaskFail(s, id), id);
    case TaskFailSync(x, fault) => assert !Unbanked(DoTaskFailSync(s, id, fault), id);
    case TaskFinish(x) => assert !Unbanked(DoTaskFinish(s, id), id);
    case TaskDie(x) => assert !Unbanked(DoTaskDie(s, id), id);
  }

  lemma {:induction false} SyncLeg(s: State, id: SessionId, fault: Fault)
    requires Enabled(s, TaskFinishSync(id, fault)) && Ready(s, id)
    ensures !Unbanked(DoTaskFinishSync(s, id, fault), id)
  {
  }

  lemma {:induction false} LastLegs(s: State, step: Step, id: SessionId)
    requires Enabled(s, step) && Mover(step) == Some(id) && Ready(s, id) && OnWay(s, id)
    ensures Unbanked(Apply(s, step), id) <==> LosesResult(s, step, id)
  {
    match step
    case TaskFinishSync(x, fault) => SyncLeg(s, id, fault);
    case TaskRollback(x) => assert !Unbanked(DoTaskRollback(s, id), id);
    case TaskSaveBank(x, fault) => assert Unbanked(DoTaskSaveBank(s, id, fault), id) <==> LosesResult(s, step, id);
    case TaskDie(x) => assert Unbanked(DoTaskDie(s, id), id) <==> LosesResult(s, step, id);
    case StartGeneration(x) =>
  }

  lemma {:induction false} MoverBanked(s: State, step: Step, id: SessionId)
    requires Reachable(s) && Enabled(s, step) && Mover(step) == Some(id) && !Unbanked(s, id)
    ensures Unbanked(Apply(s, step), id) <==> LosesResult(s, step, id)
  {
    AlwaysInv(s);
    AlwaysSourced(s, id);
    if id in s.tasks && id in s.store && s.store[id].status == Complete {
      CompleteIsOnWay(s, id);
    }
    if Runs(s, id) && id in s.store {
      OwnRecord(s, id);
    }
    if OnWay(s, id) {
      LastLegs(s, step, id);
    } else {
      EarlyLegs(s, step, id);
    }
  }

  /** The exact condition: one step leaves a completed session unbanked if and only if it loses its result. */
  lemma {:induction false} UnbankedIff(s: State, step: Step, id: SessionId)
    requires Reachable(s) && Enabled(s, step) && !Unbanked(s, id)
    ensures Unbanked(Apply(s, step), id) <==> LosesResult(s, step, id)
  {
    if Mover(step) == Some(id) {
      MoverBanked(s, step, id);
    } else {
      BankStep(s, step);
      Elsewhere(s, step, id);
      if Rewrites(step, id) {
        Rewritten(s, step, id);
      } else {
        StillBanked(s, Apply(s, step), id);
      }
    }
  }

  /** No step of the run loses this session's result. */
  predicate KeepsResult(s: State, steps: seq<Step>, id: SessionId)
    requires Legal(s, steps)
    decreases |steps|
  {
    steps == [] || (!LosesResult(s, steps[0], id) && KeepsResult(Apply(s, steps[0]), steps[1..], id))
  }

  lemma {:induction false} BankedRun(s: State, steps: seq<Step>, id: SessionId)
    requires Reachable(s) && !Unbanked(s, id) && Legal(s, steps) && KeepsResult(s, steps, id)
    ensures !Unbanked(Exec(s, steps), id)
    decreases |steps|
  {
    if steps != [] {
      UnbankedIff(s, steps[0], id);
      ReachableStep(s, steps[0]);
      BankedRun(Apply(s, steps[0]), steps[1..], id);
    }
  }

  /** A completed session that nobody works on, with a row of its owner. */
  predicate SettledFor(s: State, id: SessionId, user: UserId) {
    CompleteFor(s, id, user) && id !in s.tasks && Owns(s.rows, user, id)
  }

  /** The record is gone, the owner's row is there and its document is banked. */
  predicate Kept(s: State, id: SessionId, user: UserId, hash: Hash) {
    id !in s.store && Owns(s.rows, user, id) && s.rows[id].hash == Some(hash) && hash in s.bank
  }

  /** The row of the session is deleted, or its PDF uploaded again. */
  predicate Reopens(step: Step, id: SessionId) {
    match step
    case DeleteUserRow(_, x, _) => x == id
    case UploadSave(up) => up.id == id
    case _ => false
  }

  /** No step but an upload brings a record back. */
  lemma {:induction false} RecordStaysGone(s: State, step: Step, id: SessionId)
    requires Enabled(s, step) && id !in s.store && !Reopens(step, id)
    ensures id !in Apply(s, step).store
  {
    if Mover(step) == Some(id) {
      match step
      case TaskRead(x) => assert id !in DoTaskRead(s, id).store;
      case TaskCache(x, fault) => assert id !in DoTaskCache(s, id, fault).store;
      case TaskWork(x, succeeds, answer) => assert id !in DoTaskWork(s, id, succeeds, answer).store;
      case TaskFail(x) => assert id !in DoTaskFail(s, id).store;
      case TaskFailSync(x, fault) => assert id !in DoTaskFailSync(s, id, fault).store;
      case TaskFinish(x) => assert id !in DoTaskFinish(s, id).store;
      case TaskFinishSync(x, fault) => assert id !in DoTaskFinishSync(s, id, fault).store;
      case TaskRollback(x) => assert id !in DoTaskRollback(s, id).store;
      case TaskSaveBank(x, fault) => assert id !in DoTaskSaveBank(s, id, fault).store;
      case TaskDie(x) => assert id !in DoTaskDie(s, id).store;
      case StartGeneration(x) =>
    } else {
      Elsewhere(s, step, id);
      if Rewrites(step, id) {
        Rewritten(s, step, id);
      }
    }
  }

  lemma {:induction false} RowStaysOwned(s: State, step: Step, id: SessionId, user: UserId, hash: Hash)
    requires Inv(s) && Enabled(s, step) && !Reopens(step, id)
    requires Owns(s.rows, user, id) && s.rows[id].hash == Some(hash)
    ensures var t := Apply(s, step); Owns(t.rows, user, id) && t.rows[id].hash == Some(hash)
  {
    if Mover(step) == Some(id) {
      match step
      case TaskFailSync(x, fault) => OwnSync(s, id, fault);
      case TaskFinishSync(x, fault) => OwnSync(s, id, fault);
      case _ => PlainRows(s, step);
    } else {
      RowElsewhere(s, step, id);
    }
  }

  lemma {:induction false} OwnSync(s: State, id: SessionId, fault: Fault)
    requires id in s.rows
    ensures Enabled(s, TaskFailSync(id, fault)) ==>
              var t := DoTaskFailSync(s, id, fault);
              id in t.rows && t.rows[id].user == s.rows[id].user && t.rows[id].hash == s.rows[id].hash
    ensures Enabled(s, TaskFinishSync(id, fault)) ==>
              var t := DoTaskFinishSync(s, id, fault);
              id in t.rows && t.rows[id].user == s.rows[id].user && t.rows[id].hash == s.rows[id].hash
  {
  }

  lemma {:induction false} KeptRun(s: State, steps: seq<Step>, id: SessionId, user: UserId, hash: Hash)
    requires Inv(s) && Legal(s, steps) && Kept(s, id, user, hash)
    requires forall step | step in steps :: !Reopens(step, id)
    ensures Kept(Exec(s, steps), id, user, hash) && Exec(s, steps).bank[hash] == s.bank[hash]
    decreases |steps|
  {
    if steps != [] {
      assert steps[0] in steps;
      RecordStaysGone(s, steps[0], id);
      RowStaysOwned(s, steps[0], id, user, hash);
      BankStep(s, steps[0]);
      StepKeeps(s, steps[0]);
      KeptRun(Apply(s, steps[0]), steps[1..], id, user, hash);
    }
  }

  lemma {:induction false} KeptServes(s: State, id: SessionId, user: UserId, hash: Hash)
    requires Kept(s, id, user, hash)
    ensures GetResult(s, id, Some(user), Up, Up) == Served(s.bank[hash])
  {
  }

  /** After its record is gone, a settled result is served from the bank if its document is there, else not found. */
  lemma {:induction false} AfterExpiry(s: State, id: SessionId, user: UserId)
    requires Reachable(s) && SettledFor(s, id, user)
    ensures var hash := s.store[id].hash;
            GetResult(Apply(s, Forget(id)), id, Some(user), Up, Up)
            == if hash in s.bank then Served(s.bank[hash]) else NotFound
  {
    OneOwnerOneDocument(s, id);
    var t := Apply(s, Forget(id));
    assert t == DoForget(s, id);
  }

  /**
   * Re-entry whatever happens to the record: over every run in which no save of this result was lost, a
   * settled completed session whose record goes is served to its owner from the bank then and after every
   * further run, until its row is deleted or its PDF uploaded again.
   */
  lemma {:induction false} ResultOutlivesRecord(steps: seq<Step>, id: SessionId, user: UserId, more: seq<Step>)
    requires Legal(INIT, steps) && KeepsResult(INIT, steps, id)
    requires SettledFor(Exec(INIT, steps), id, user)
    requires Legal(Apply(Exec(INIT, steps), Forget(id)), more) && forall step | step in more :: !Reopens(step, id)
    ensures var s := Exec(INIT, steps);
            var hash := s.store[id].hash;
            hash in s.bank
            && GetResult(Exec(Apply(s, Forget(id)), more), id, Some(user), Up, Up) == Served(s.bank[hash])
  {
    assert Legal(INIT, []) && Exec(INIT, []) == INIT;
    BankedRun(INIT, steps, id);
    KeptFrom(Exec(INIT, steps), id, user, more);
  }

  lemma {:induction false} KeptFrom(s: State, id: SessionId, user: UserId, more: seq<Step>)
    requires Reachable(s) && SettledFor(s, id, user) && s.store[id].hash in s.bank
    requires Legal(Apply(s, Forget(id)), more) && forall step | step in more :: !Reopens(step, id)
    ensures GetResult(Exec(Apply(s, Forget(id)), more), id, Some(user), Up, Up) == Served(s.bank[s.store[id].hash])
  {
    var hash, t := s.store[id].hash, Apply(s, Forget(id));
    assert t == DoForget(s, id);
    OneOwnerOneDocument(s, id);
    AlwaysInv(s);
    StepKeeps(s, Forget(id));
    KeptRun(t, more, id, user, hash);
    KeptServes(Exec(t, more), id, user, hash);
  }
}
