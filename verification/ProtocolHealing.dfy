/** The self-heal of get_sessions, as the three statements it consists of. */
module ProtocolHealing {
  import opened Wrappers
  import opened StudyTypes
  import opened UserRows
  import opened Protocol
  import opened ProtocolInvariants
  import opened ProtocolTheorems
  import opened ProtocolBank

  /** The three steps of one listing, with both databases up and nobody in between. */
  function Listing(s: State, user: UserId): seq<Step> {
    var heal := Heal(user, PendingHashes(s.rows, user), None);
    [HealRead(user), HealBank(heal, Up), HealWrite(heal.(ready := Some(Banked(heal.pending, s.bank.Keys))), Up)]
  }

  lemma {:induction false} ExecCons(s: State, step: Step, rest: seq<Step>)
    requires Enabled(s, step) && Legal(Apply(s, step), rest)
    ensures Legal(s, [step] + rest) && Exec(s, [step] + rest) == Exec(Apply(s, step), rest)
  {
    assert ([step] + rest)[1..] == rest;
  }

  lemma {:induction false} Legal3(s: State, a: Step, b: Step, c: Step)
    requires Enabled(s, a) && Enabled(Apply(s, a), b) && Enabled(Apply(Apply(s, a), b), c)
    ensures Legal(s, [a, b, c]) && Exec(s, [a, b, c]) == Apply(Apply(Apply(s, a), b), c)
  {
    var t := Apply(s, a);
    var u := Apply(t, b);
    ExecCons(u, c, []);
    ExecCons(t, b, [c]);
    ExecCons(s, a, [b, c]);
    assert [c] + [] == [c] && [b] + [c] == [b, c] && [a] + [b, c] == [a, b, c];
  }

  lemma {:induction false} ListingRuns(s: State, user: UserId)
    ensures Legal(s, Listing(s, user))
    ensures Exec(s, Listing(s, user)) == s.(rows := Healed(s.rows, user, s.bank.Keys))
  {
    var steps := Listing(s, user);
    Legal3(s, steps[0], steps[1], steps[2]);
    var t := Exec(s, steps);
    assert t.heals == s.heals;
  }

  /** The user's rows that a listing promotes. */
  predicate Heals(s: State, user: UserId, id: SessionId) {
    && Owns(s.rows, user, id) && s.rows[id].status == PENDING
    && s.rows[id].hash.Some? && s.rows[id].hash.value in s.bank
  }

  /**
   * With both databases up and no other writer, a listing promotes exactly the user's pending rows with a
   * banked hash, leaves none of them, and changes nothing else in any store.
   */
  lemma {:induction false} ListingHeals(s: State, user: UserId)
    ensures Legal(s, Listing(s, user))
    ensures var t := Exec(s, Listing(s, user));
            && t == s.(rows := t.rows) && t.rows.Keys == s.rows.Keys
            && (forall id | id in s.rows ::
                  t.rows[id] == if Heals(s, user, id) then s.rows[id].(status := READY) else s.rows[id])
            && forall id :: !Heals(t, user, id)
  {
    ListingRuns(s, user);
    HealedExactly(s.rows, user, s.bank.Keys);
  }

  /** Listing again changes nothing. */
  lemma {:induction false} ListingIdempotent(s: State, user: UserId)
    ensures Legal(s, Listing(s, user))
    ensures var t := Exec(s, Listing(s, user));
            Legal(t, Listing(t, user)) && Exec(t, Listing(t, user)) == t
  {
    ListingRuns(s, user);
    ListingRuns(Exec(s, Listing(s, user)), user);
    HealIdempotent(s.rows, user, s.bank.Keys);
  }

  lemma {:induction false} Legal2(s: State, a: Step, b: Step)
    requires Enabled(s, a) && Enabled(Apply(s, a), b)
    ensures Legal(s, [a, b]) && Exec(s, [a, b]) == Apply(Apply(s, a), b)
  {
    ExecCons(Apply(s, a), b, []);
    ExecCons(s, a, [b]);
    assert [b] + [] == [b] && [a] + [b] == [a, b];
  }

  /** A run settles its row without learning that it did; what it generated is banked all the same. */
  function SyncLoss(id: SessionId, generated: bool, fault: Fault): seq<Step> {
    if generated then [TaskFinishSync(id, fault), TaskRollback(id), TaskSaveBank(id, Up)]
    else [TaskFinishSync(id, fault), TaskRollback(id)]
  }

  /**
   * Such a run, with generated or with banked content, is shown ready at the next listing if and only if
   * the row's update was applied after all or the row did not read failed, from an earlier generation: the
   * self-heal looks at pending rows only.
   */
  lemma {:induction false} SyncLossRepairedIff(s: State, id: SessionId, user: UserId, content: Content,
                                               generated: bool, fault: Fault)
    requires Reachable(s) && At(s, id, FinishSync(content, generated)) && s.tasks[id].rec.user == Some(user)
    requires Owns(s.rows, user, id) && fault != Up
    ensures Legal(s, SyncLoss(id, generated, fault))
    ensures var t := Exec(s, SyncLoss(id, generated, fault));
            && Legal(t, Listing(t, user))
            && (ReadyFor(Exec(t, Listing(t, user)), id, user) <==> fault == Late || s.rows[id].status != FAILED)
  {
    AlwaysInv(s);
    assert SessionInv(ViewOf(s, id));
    AlwaysSourced(s, id);
    SyncLossEnds(s, id, user, content, generated, fault);
    ListingHeals(Exec(s, SyncLoss(id, generated, fault)), user);
  }

  lemma {:induction false} SyncLossEnds(s: State, id: SessionId, user: UserId, content: Content, generated: bool,
                                        fault: Fault)
    requires At(s, id, FinishSync(content, generated)) && s.tasks[id].rec.user == Some(user) && fault != Up
    requires generated || s.tasks[id].rec.hash in s.bank
    ensures Legal(s, SyncLoss(id, generated, fault))
    ensures var t := Exec(s, SyncLoss(id, generated, fault));
            && s.tasks[id].rec.hash in t.bank && id !in t.tasks
            && t.rows == if fault == Lost then s.rows else SetStatus(s.rows, user, id, READY)
  {
    var steps := SyncLoss(id, generated, fault);
    var a := DoTaskFinishSync(s, id, fault);
    var b := DoTaskRollback(a, id);
    assert Apply(s, steps[0]) == a && Apply(a, steps[1]) == b;
    if generated {
      Legal3(s, steps[0], steps[1], steps[2]);
      assert Exec(s, steps) == DoTaskSaveBank(b, id, Up);
    } else {
      Legal2(s, steps[0], steps[1]);
    }
  }
}
