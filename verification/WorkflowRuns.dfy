/** What holds in every interleaving of every number of sessions, however stale the
    copies they work from. */
module WorkflowRuns {
  import opened Results
  import opened Workflow

  function Past(w: World, id: Id): seq<Commit> {
    if id in w.past then w.past[id] else []
  }

  lemma {:induction false} RunAppend(w: World, a: seq<Event>, b: seq<Event>)
    ensures Run(w, a + b) == Run(Run(w, a), b)
    decreases |a|
  {
    if a == [] {
      assert a + b == b;
    } else {
      assert (a + b)[1..] == a[1..] + b;
      RunAppend(Step(w, a[0]), a[1..], b);
    }
  }

  // ----- histories -----

  lemma WasInGrows(past: seq<Commit>, more: seq<Commit>, s: State)
    requires WasIn(past, s)
    ensures WasIn(past + more, s)
  {
    if s != Discovered {
      var i :| 0 <= i < |past| && past[i].after == s;
      assert (past + more)[i].after == s;
    }
  }

  lemma WasApprovedGrows(past: seq<Commit>, more: seq<Commit>)
    ensures WasApproved(past) ==> WasApproved(past + more)
  {
    if WasApproved(past) {
      var i :| 0 <= i < |past| && past[i].after == Approved;
      assert (past + more)[i].after == Approved;
    }
  }

  lemma LegalGrows(past: seq<Commit>, c: Commit)
    requires LegalHistory(past) && c.before == Current(past) && Justified(past, c)
    ensures LegalHistory(past + [c])
  {
    var longer := past + [c];
    forall i | 0 <= i < |longer|
      ensures longer[i].before == Current(longer[..i]) && Justified(longer[..i], longer[i])
    {
      if i < |past| {
        assert longer[..i] == past[..i];
      } else {
        assert longer[..i] == past;
      }
    }
  }

  /** A release that reaches the queue or a download outcome was approved at a strictly earlier commit. */
  lemma {:induction false} ApprovedBefore(past: seq<Commit>, i: nat)
    requires LegalHistory(past)
    requires i < |past| && past[i].after in {Queued, Downloaded, DownloadFailed}
    ensures WasApproved(past[..i])
    decreases i, 1
  {
    assert Justified(past[..i], past[i]);
    if past[i].seen == Queued {
      QueuedWasApproved(past, i, Queued);
    } else {
      assert past[i].seen == Approved;
    }
  }

  lemma {:induction false} QueuedWasApproved(past: seq<Commit>, i: nat, s: State)
    requires LegalHistory(past)
    requires i <= |past| && WasIn(past[..i], s) && s in {Queued, Downloaded, DownloadFailed}
    ensures WasApproved(past[..i])
    decreases i, 0
  {
    var j :| 0 <= j < i && past[..i][j].after == s;
    ApprovedBefore(past, j);
    hide LegalHistory;
    var k :| 0 <= k < j && past[..j][k].after == Approved;
    assert past[..i][k].after == Approved;
  }

  /** The first approval came from a session that held the release under review, or was an override. */
  lemma FirstApproval(past: seq<Commit>, i: nat)
    requires LegalHistory(past)
    requires i < |past| && past[i].after == Approved && !WasApproved(past[..i])
    ensures past[i].cause == ByOverride || (past[i].seen == UnderReview && WasIn(past[..i], UnderReview))
  {
    var c := past[i];
    assert Justified(past[..i], c);
    if c.cause != ByOverride && c.seen == Queued {
      QueuedWasApproved(past, i, Queued);
    } else if c.cause != ByOverride && c.seen == DownloadFailed {
      QueuedWasApproved(past, i, DownloadFailed);
    }
  }

  /** A download outcome is final except for overrides and for commits from a stale copy. */
  lemma DownloadedIsFinal(past: seq<Commit>, i: nat)
    requires LegalHistory(past)
    requires i < |past| && past[i].before == Downloaded
    ensures past[i].cause == ByOverride || past[i].seen != Downloaded
  {
    assert Justified(past[..i], past[i]);
  }

  // ----- the invariant, one release at a time -----

  ghost predicate Inv(w: World, id: Id) {
    && LegalHistory(Past(w, id))
    && (id in w.rows ==>
          && id in w.past
          && w.rows[id].state == Current(w.past[id])
          && (w.rows[id].trust == AdminVerified ==> WasApproved(w.past[id]))
          && (w.rows[id].job.Some? ==> WasApproved(w.past[id])))
    && (forall s :: (s, id) in w.held ==> id in w.past && WasIn(w.past[id], w.held[(s, id)].state))
    && (forall s :: s in w.tasks && w.tasks[s].id == id ==>
          id in w.past && (w.tasks[s].OweAudit? || WasApproved(w.past[id])))
  }

  lemma CurrentWasIn(past: seq<Commit>)
    ensures WasIn(past, Current(past))
  {
    if past != [] {
      assert past[|past| - 1].after == Current(past);
    }
  }

  lemma WriteJustified(w: World, s: Session, id: Id, target: State, cause: Cause)
    requires Inv(w, id) && (s, id) in w.held && id in w.rows && id in w.past
    requires cause == ByOverride ==> target == Approved
    requires cause != ByOverride ==> target in Allowed(w.held[(s, id)].state)
    requires cause == ByCompletion ==> target == Downloaded || target == DownloadFailed
    ensures var stored, seen := w.rows[id].state, w.held[(s, id)].state;
            var c := Commit(stored, seen, Written(stored, seen, target), cause);
            && c.before == Current(w.past[id]) && Justified(w.past[id], c)
            && WasIn(w.past[id] + [c], target)
            && (target == Approved ==> WasApproved(w.past[id] + [c]))
  {
    hide LegalHistory, Current;
    var stored, seen := w.rows[id].state, w.held[(s, id)].state;
    var past, c := w.past[id], Commit(stored, seen, Written(stored, seen, target), cause);
    assert WasIn(past, seen) && (past + [c])[|past|] == c;
    WasInGrows(past, [c], seen);
  }

  /** A write to one release does not bear on another. */
  lemma WriteElsewhere(w: World, s: Session, id: Id, target: State, user: string, cause: Cause, r: Id)
    requires Inv(w, r) && r != id && (s, id) in w.held && id in w.rows && id in w.past
    ensures Inv(WriteState(w, s, id, target, user, cause), r)
  {
    hide LegalHistory, WasIn, WasApproved, Current, Written;
  }

  lemma WriteParts(w: World, s: Session, id: Id, target: State, user: string, cause: Cause)
    requires (s, id) in w.held && id in w.rows && id in w.past
    ensures var v, stored, seen := WriteState(w, s, id, target, user, cause), w.rows[id], w.held[(s, id)];
            var state := Written(stored.state, seen.state, target);
            && v.past == w.past[id := w.past[id] + [Commit(stored.state, seen.state, state, cause)]]
            && id in v.rows && v.rows[id].state == state
            && v.rows[id].trust == stored.trust && v.rows[id].job == stored.job
            && v.held.Keys == w.held.Keys && v.held[(s, id)].state == target
            && (forall k :: k in w.held && k != (s, id) ==> v.held[k] == w.held[k])
            && v.tasks == w.tasks
  {
  }

  lemma WriteStateKeeps(w: World, s: Session, id: Id, target: State, user: string, cause: Cause, r: Id)
    requires Inv(w, r)
    requires (s, id) in w.held && id in w.rows && id in w.past
    requires cause == ByOverride ==> target == Approved
    requires cause != ByOverride ==> target in Allowed(w.held[(s, id)].state)
    requires cause == ByCompletion ==> target == Downloaded || target == DownloadFailed
    ensures Inv(WriteState(w, s, id, target, user, cause), r)
    ensures target == Approved && r == id ==> WasApproved(WriteState(w, s, id, target, user, cause).past[id])
  {
    if r != id {
      WriteElsewhere(w, s, id, target, user, cause, r);
    } else {
      var stored, seen := w.rows[id].state, w.held[(s, id)].state;
      var past, c := w.past[id], Commit(stored, seen, Written(stored, seen, target), cause);
      var v := WriteState(w, s, id, target, user, cause);
      WriteJustified(w, s, id, target, cause);
      WriteParts(w, s, id, target, user, cause);
      assert Current(past + [c]) == c.after;
      hide LegalHistory, WasIn, WasApproved, Current, Written, Allowed, Justified, WriteState;
      LegalGrows(past, c);
      WasApprovedGrows(past, [c]);
      forall t | (t, id) in v.held
        ensures WasIn(past + [c], v.held[(t, id)].state)
      {
        if t != s {
          WasInGrows(past, [c], w.held[(t, id)].state);
        }
      }
      assert Past(v, id) == past + [c];
    }
  }

  lemma MoveKeeps(w: World, s: Session, id: Id, target: State, user: string, r: Id)
    requires Inv(w, r)
    ensures Inv(Step(w, Move(s, id, target, user)), r)
  {
    if CanMove(w, s, id, target) {
      WriteStateKeeps(w, s, id, target, user, ByTable, r);
    }
  }

  lemma TaskKeeps(w: World, s: Session, task: Task, r: Id)
    requires Inv(w, r)
    requires task.id == r ==> r in w.past && (task.OweAudit? || WasApproved(w.past[r]))
    ensures Inv(SetTask(w, s, task), r) && Inv(EndTask(w, s), r)
  {
    hide LegalHistory, WasIn, WasApproved, Current;
  }

  lemma ApproveKeeps(w: World, s: Session, id: Id, user: string, r: Id)
    requires Inv(w, r)
    ensures Inv(Step(w, Approve(s, id, user)), r)
  {
    if CanMove(w, s, id, Approved) {
      WriteStateKeeps(w, s, id, Approved, user, ByTable, r);
      WriteParts(w, s, id, Approved, user, ByTable);
      hide Inv, WriteState, WasApproved;
      TaskKeeps(WriteState(w, s, id, Approved, user, ByTable), s, OweVerify(id), r);
    }
  }

  lemma OverrideKeeps(w: World, s: Session, id: Id, user: string, reason: Option<string>, r: Id)
    requires Inv(w, r)
    ensures Inv(Step(w, Override(s, id, user, reason)), r)
  {
    if OverrideAccepted(w, s, id, reason) {
      WriteStateKeeps(w, s, id, Approved, user, ByOverride, r);
    }
  }

  lemma CompleteKeeps(w: World, s: Session, id: Id, success: bool, user: string, r: Id)
    requires Inv(w, r)
    ensures Inv(Step(w, Complete(s, id, success, user)), r)
  {
    if CanMove(w, s, id, Outcome(success)) {
      WriteStateKeeps(w, s, id, Outcome(success), user, ByCompletion, r);
      WriteParts(w, s, id, Outcome(success), user, ByCompletion);
      hide Inv, WriteState, WasApproved, Outcome;
      TaskKeeps(WriteState(w, s, id, Outcome(success), user, ByCompletion), s, OweAudit(id, success, user), r);
    }
  }

  lemma EnqueueKeeps(w: World, s: Session, user: string, r: Id)
    requires Inv(w, r)
    ensures Inv(Step(w, Enqueue(s, user)), r)
  {
    if s in w.tasks && w.tasks[s].Sending? && CanMove(w, s, w.tasks[s].id, Queued) {
      WriteStateKeeps(w, s, w.tasks[s].id, Queued, user, ByTable, r);
    }
  }

  lemma BeginSendKeeps(w: World, s: Session, id: Id, r: Id)
    requires Inv(w, r)
    ensures Inv(Step(w, BeginSend(s, id)), r)
  {
    if id == r && (s, id) in w.held && w.held[(s, id)].state == Approved {
      assert WasIn(w.past[id], Approved);
    }
  }

  /** Whatever copies a session takes of the stored row or lets go, they show states it has been in. */
  lemma CopyKeeps(w: World, s: Session, id: Id, held: map<(Session, Id), Release>, r: Id)
    requires Inv(w, r)
    requires forall k :: k in held ==>
               || (k in w.held && held[k] == w.held[k])
               || (k == (s, id) && id in w.rows && held[k] == w.rows[id])
    ensures Inv(w.(held := held), r)
  {
    hide LegalHistory, WasApproved;
    CurrentWasIn(Past(w, r));
  }

  lemma LoadKeeps(w: World, s: Session, id: Id, r: Id)
    requires Inv(w, r)
    ensures Inv(Step(w, Load(s, id)), r) && Inv(Step(w, Refresh(s, id)), r) && Inv(Step(w, Forget(s, id)), r)
  {
    hide Inv;
    if id in w.rows {
      CopyKeeps(w, s, id, w.held[(s, id) := w.rows[id]], r);
    }
    CopyKeeps(w, s, id, w.held - {(s, id)}, r);
  }

  predicate Writes(e: Event) {
    e.Move? || e.Approve? || e.Override? || e.Complete? || e.Enqueue?
  }

  lemma QuietKeeps(w: World, e: Event, r: Id)
    requires Inv(w, r)
    requires !Writes(e) && !e.BeginSend? && !e.Load? && !e.Refresh? && !e.Forget?
    ensures Inv(Step(w, e), r)
  {
    assert LegalHistory([]);
    hide LegalHistory, WasApproved;
  }

  lemma StepKeeps(w: World, e: Event, r: Id)
    requires Inv(w, r)
    ensures Inv(Step(w, e), r)
  {
    hide Step, Inv;
    match e {
      case Move(s, id, target, user) => MoveKeeps(w, s, id, target, user, r);
      case Approve(s, id, user) => ApproveKeeps(w, s, id, user, r);
      case Override(s, id, user, reason) => OverrideKeeps(w, s, id, user, reason, r);
      case Complete(s, id, success, user) => CompleteKeeps(w, s, id, success, user, r);
      case Enqueue(s, user) => EnqueueKeeps(w, s, user, r);
      case BeginSend(s, id) => BeginSendKeeps(w, s, id, r);
      case Load(s, id) => LoadKeeps(w, s, id, r);
      case Refresh(s, id) => LoadKeeps(w, s, id, r);
      case Forget(s, id) => LoadKeeps(w, s, id, r);
      case _ => QuietKeeps(w, e, r);
    }
  }

  lemma {:induction false} RunKeeps(w: World, events: seq<Event>, r: Id)
    requires Inv(w, r)
    ensures Inv(Run(w, events), r)
    decreases |events|
  {
    if events != [] {
      StepKeeps(w, events[0], r);
      RunKeeps(Step(w, events[0]), events[1..], r);
    }
  }

  /** A stored release is only where its history allows: past approval whenever it is queued,
      downloaded, failed, admin verified or tied to a download job; and its first approval was
      a review decision or an override. */
  ghost predicate Vetted(release: Release, past: seq<Commit>) {
    && release.state == Current(past)
    && (release.state in {Approved, Queued, Downloaded, DownloadFailed} ==> WasApproved(past))
    && (release.trust == AdminVerified ==> WasApproved(past))
    && (release.job.Some? ==> WasApproved(past))
    && (forall i :: 0 <= i < |past| && past[i].after in {Queued, Downloaded, DownloadFailed} ==> WasApproved(past[..i]))
    && (forall i :: 0 <= i < |past| && past[i].after == Approved && !WasApproved(past[..i]) ==>
          past[i].cause == ByOverride || (past[i].seen == UnderReview && WasIn(past[..i], UnderReview)))
  }

  /** In every run from an empty database, every stored release is vetted. */
  lemma EveryReleaseIsVetted(events: seq<Event>, id: Id)
    requires id in Run(EMPTY_WORLD, events).rows
    ensures var w := Run(EMPTY_WORLD, events); id in w.past && Vetted(w.rows[id], w.past[id])
  {
    assert Inv(EMPTY_WORLD, id);
    RunKeeps(EMPTY_WORLD, events, id);
    var w := Run(EMPTY_WORLD, events);
    var past := w.past[id];
    forall i | 0 <= i < |past| && past[i].after in {Queued, Downloaded, DownloadFailed}
      ensures WasApproved(past[..i])
    {
      ApprovedBefore(past, i);
    }
    forall i | 0 <= i < |past| && past[i].after == Approved && !WasApproved(past[..i])
      ensures past[i].cause == ByOverride || (past[i].seen == UnderReview && WasIn(past[..i], UnderReview))
    {
      FirstApproval(past, i);
    }
    var last := |past| - 1;
    if w.rows[id].state in {Queued, Downloaded, DownloadFailed} {
      ApprovedBefore(past, last);
      assert past == past[..last] + past[last..];
      WasApprovedGrows(past[..last], past[last..]);
    } else if w.rows[id].state == Approved {
      assert past[last].after == Approved;
    }
  }
}
