/** What the service operations do as wholes: each is a run, and a bulk approval succeeds
    on exactly the releases whose stored state allows approval. */
module WorkflowOutcomes {
  import opened Collections
  import opened Results
  import opened Workflow
  import opened WorkflowRuns
  import opened WorkflowService

  // ----- operations are runs -----

  ghost predicate Reachable(w: World) {
    exists events :: w == Run(EMPTY_WORLD, events)
  }

  lemma StepReaches(w: World, e: Event)
    requires Reachable(w)
    ensures Reachable(Step(w, e))
  {
    hide Step;
    var events :| w == Run(EMPTY_WORLD, events);
    RunAppend(EMPTY_WORLD, events, [e]);
    assert Run(w, [e]) == Run(Step(w, e), [e][1..]);
    assert Run(EMPTY_WORLD, events + [e]) == Step(w, e);
  }

  /** Whatever a service operation leaves behind is the end of some run, so all that holds of
      runs holds after any sequence of operations. */
  lemma OperationsReach(
      w: World, s: Session, id: Id, target: State, success: bool, user: string, reason: Option<string>)
    requires Reachable(w)
    ensures Reachable(AfterTransition(w, s, id, target, user))
    ensures Reachable(AfterApprove(w, s, id, user))
    ensures Reachable(AfterOverride(w, s, id, user, reason))
    ensures Reachable(AfterHook(w, s, id, success, user))
  {
    hide Step;
    var l := Loaded(w, s, id);
    StepReaches(w, Load(s, id));
    StepReaches(l, Move(s, id, target, user));
    StepReaches(Step(l, Move(s, id, target, user)), Refresh(s, id));
    var a := Step(l, Approve(s, id, user));
    StepReaches(l, Approve(s, id, user));
    StepReaches(a, Refresh(s, id));
    StepReaches(Step(a, Refresh(s, id)), Verify(s));
    StepReaches(Step(Step(a, Refresh(s, id)), Verify(s)), Refresh(s, id));
    StepReaches(l, Override(s, id, user, reason));
    StepReaches(Step(l, Override(s, id, user, reason)), Refresh(s, id));
    var c := Step(l, Complete(s, id, success, user));
    StepReaches(l, Complete(s, id, success, user));
    StepReaches(c, Refresh(s, id));
    StepReaches(Step(c, Refresh(s, id)), LogCompletion(s));
  }

  lemma {:induction false} BulkApproveReaches(w: World, s: Session, ids: seq<Id>, user: string)
    requires Reachable(w)
    ensures Reachable(AfterBulkApprove(w, s, ids, user))
    decreases |ids|
  {
    if ids != [] {
      OperationsReach(w, s, ids[0], Approved, true, user, None);
      hide AfterApprove;
      BulkApproveReaches(AfterApprove(w, s, ids[0], user), s, ids[1..], user);
    }
  }

  // ----- bulk approval -----

  /** Every copy the session holds is what is stored, as in a session that was just opened. */
  ghost predicate UpToDate(w: World, s: Session) {
    && w.rows.Keys <= w.past.Keys
    && forall id :: (s, id) in w.held && id in w.rows ==> w.held[(s, id)] == w.rows[id]
  }

  predicate Approvable(w: World, id: Id) {
    id in w.rows && Approved in Allowed(w.rows[id].state)
  }

  function ApprovedRow(r: Release, user: string): Release {
    r.(state := Approved, changedBy := user, trust := AdminVerified)
  }

  lemma LoadEffect(w: World, s: Session, id: Id, target: State)
    requires UpToDate(w, s)
    ensures var l := Loaded(w, s, id); UpToDate(l, s) && l.rows == w.rows && l.audit == w.audit
    ensures CanMove(Loaded(w, s, id), s, id, target) <==> id in w.rows && target in Allowed(w.rows[id].state)
  {
  }

  lemma CommitEffect(w: World, s: Session, id: Id, user: string)
    requires UpToDate(w, s) && CanMove(w, s, id, Approved)
    ensures var a := Step(Step(w, Approve(s, id, user)), Refresh(s, id));
            && UpToDate(a, s)
            && a.rows == w.rows[id := w.rows[id].(state := Approved, changedBy := user)]
            && s in a.tasks && a.tasks[s] == OweVerify(id) && (s, id) in a.held
  {
  }

  lemma VerifyEffect(w: World, s: Session, id: Id)
    requires UpToDate(w, s) && id in w.rows && (s, id) in w.held && s in w.tasks && w.tasks[s] == OweVerify(id)
    ensures var v := Step(Step(w, Verify(s)), Refresh(s, id));
            UpToDate(v, s) && v.rows == w.rows[id := w.rows[id].(trust := AdminVerified)]
  {
  }

  lemma ApproveEffect(w: World, s: Session, id: Id, user: string)
    requires UpToDate(w, s)
    ensures var w' := AfterApprove(w, s, id, user);
            && UpToDate(w', s)
            && (CanMove(Loaded(w, s, id), s, id, Approved) <==> Approvable(w, id))
            && w'.rows == if Approvable(w, id) then w.rows[id := ApprovedRow(w.rows[id], user)] else w.rows
  {
    hide Step, UpToDate, CanMove, Loaded;
    var l := Loaded(w, s, id);
    LoadEffect(w, s, id, Approved);
    if CanMove(l, s, id, Approved) {
      CommitEffect(l, s, id, user);
      VerifyEffect(Step(Step(l, Approve(s, id, user)), Refresh(s, id)), s, id);
    }
  }

  lemma {:induction false} BulkEffect(w: World, s: Session, ids: seq<Id>, user: string)
    requires UpToDate(w, s)
    ensures var w' := AfterBulkApprove(w, s, ids, user); var done := BulkReport(w, s, ids, user, true);
            && w'.rows.Keys == w.rows.Keys
            && NoRepeats(done)
            && (forall id :: id in done <==> id in ids && Approvable(w, id))
            && (forall id :: id in w.rows ==>
                  w'.rows[id] == if id in done then ApprovedRow(w.rows[id], user) else w.rows[id])
    decreases |ids|
  {
    hide AfterApprove, Loaded, CanMove;
    if ids != [] {
      ApproveEffect(w, s, ids[0], user);
      var next := AfterApprove(w, s, ids[0], user);
      BulkEffect(next, s, ids[1..], user);
      assert forall id :: id in ids <==> id == ids[0] || id in ids[1..];
      assert forall id :: Approvable(next, id) <==> Approvable(w, id) && (id != ids[0] || !Approvable(w, id));
    }
  }

  /** A bulk approval from up-to-date copies approves exactly the requested releases whose
      state allows it, each once, and touches no other; the others are reported as failed. */
  lemma BulkApproveOutcome(w: World, s: Session, ids: seq<Id>, user: string)
    requires UpToDate(w, s)
    ensures var w' := AfterBulkApprove(w, s, ids, user);
            var done, failed := BulkReport(w, s, ids, user, true), BulkReport(w, s, ids, user, false);
            && NoRepeats(done)
            && (forall id :: id in done <==> id in ids && Approvable(w, id))
            && multiset(done) + multiset(failed) == multiset(ids)
            && w'.rows == map id | id in w.rows :: if id in done then ApprovedRow(w.rows[id], user) else w.rows[id]
  {
    BulkEffect(w, s, ids, user);
    ReportsPartition(w, s, ids, user);
  }

  lemma {:induction false} ReportsPartition(w: World, s: Session, ids: seq<Id>, user: string)
    ensures multiset(BulkReport(w, s, ids, user, true)) + multiset(BulkReport(w, s, ids, user, false)) == multiset(ids)
    decreases |ids|
  {
    hide *;
    if ids == [] {
      BulkNothing(w, s, user);
    } else {
      var next, rest := AfterApprove(w, s, ids[0], user), ids[1..];
      BulkUnfold(w, s, ids, 0, user);
      assert ids[0..] == ids && ids == [ids[0]] + rest;
      ReportsPartition(next, s, rest, user);
      var done, failed := BulkReport(next, s, rest, user, true), BulkReport(next, s, rest, user, false);
      if CanMove(Loaded(w, s, ids[0]), s, ids[0], Approved) {
        assert BulkReport(w, s, ids, user, true) == [ids[0]] + done;
        assert BulkReport(w, s, ids, user, false) == [] + failed;
        assert [] + failed == failed;
      } else {
        assert BulkReport(w, s, ids, user, true) == [] + done;
        assert BulkReport(w, s, ids, user, false) == [ids[0]] + failed;
        assert [] + done == done;
      }
    }
  }
}
