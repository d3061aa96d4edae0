/** What one event does to the parts of the world: the history and the row of one release, the tasks of
    the sessions and the audit log. */
module WorkflowSteps {
  import opened Results
  import opened Workflow
  import opened WorkflowRuns

  function CommitBy(w: World, s: Session, id: Id, target: State, cause: Cause): Commit
    requires (s, id) in w.held && id in w.rows
  {
    var stored, seen := w.rows[id].state, w.held[(s, id)].state;
    Commit(stored, seen, Written(stored, seen, target), cause)
  }

  /** The session is in a send of the release that the table lets it queue. */
  predicate CanQueue(w: World, s: Session, id: Id) {
    s in w.tasks && w.tasks[s] == Sending(id) && CanMove(w, s, id, Queued)
  }

  /** The commit that an event makes to the history of a release, if it makes one. */
  function CommitOf(w: World, e: Event, id: Id): Option<Commit> {
    match e
    case Move(s, r, target, _) =>
      if r == id && CanMove(w, s, id, target) then Some(CommitBy(w, s, id, target, ByTable)) else None
    case Approve(s, r, _) =>
      if r == id && CanMove(w, s, id, Approved) then Some(CommitBy(w, s, id, Approved, ByTable)) else None
    case Override(s, r, _, reason) =>
      if r == id && OverrideAccepted(w, s, id, reason) then Some(CommitBy(w, s, id, Approved, ByOverride)) else None
    case Complete(s, r, success, _) =>
      if r == id && CanMove(w, s, id, Outcome(success)) then Some(CommitBy(w, s, id, Outcome(success), ByCompletion))
      else None
    case Enqueue(s, _) =>
      if CanQueue(w, s, id) then Some(CommitBy(w, s, id, Queued, ByTable)) else None
    case _ => None
  }

  function Committed(c: Option<Commit>): seq<Commit> {
    match c
    case Some(commit) => [commit]
    case None => []
  }

  /** The history is as long as before or longer by that commit, and the row is in the state it wrote. */
  predicate Follows(w: World, v: World, c: Option<Commit>, id: Id) {
    && Past(v, id) == Past(w, id) + Committed(c)
    && (id in v.rows && id in w.rows && id in w.past ==>
          v.rows[id].state == if c.Some? then c.value.after else w.rows[id].state)
    && (c.Some? ==> id in w.rows && id in w.past && id in v.rows && c.value.before == w.rows[id].state)
    && (id in w.past ==> id in v.past && (id in v.rows ==> id in w.rows))
    && (id in v.rows && id !in w.rows ==> id in v.past)
  }

  lemma Same(w: World, v: World, id: Id)
    requires v.rows == w.rows && v.past == w.past
    ensures Follows(w, v, None, id)
  {
    assert Past(w, id) + [] == Past(w, id);
  }

  lemma WriteFollows(w: World, s: Session, r: Id, target: State, user: string, cause: Cause, id: Id)
    requires (s, r) in w.held && r in w.rows && r in w.past
    ensures var c := if r == id then Some(CommitBy(w, s, r, target, cause)) else None;
            Follows(w, WriteState(w, s, r, target, user, cause), c, id)
  {
    assert Past(w, id) + [] == Past(w, id);
  }

  lemma MoveFollows(w: World, s: Session, r: Id, target: State, user: string, id: Id)
    ensures var e := Move(s, r, target, user); Follows(w, Step(w, e), CommitOf(w, e, id), id)
    ensures target == Approved ==>
              var e := Approve(s, r, user); Follows(w, Step(w, e), CommitOf(w, e, id), id)
  {
    if CanMove(w, s, r, target) {
      WriteFollows(w, s, r, target, user, ByTable, id);
    } else {
      Same(w, w, id);
    }
    hide WriteState, CanMove;
  }

  lemma OverrideFollows(w: World, s: Session, r: Id, user: string, reason: Option<string>, id: Id)
    ensures var e := Override(s, r, user, reason); Follows(w, Step(w, e), CommitOf(w, e, id), id)
  {
    if OverrideAccepted(w, s, r, reason) {
      WriteFollows(w, s, r, Approved, user, ByOverride, id);
    } else {
      Same(w, w, id);
    }
  }

  lemma CompleteFollows(w: World, s: Session, r: Id, success: bool, user: string, id: Id)
    ensures var e := Complete(s, r, success, user); Follows(w, Step(w, e), CommitOf(w, e, id), id)
  {
    if CanMove(w, s, r, Outcome(success)) {
      WriteFollows(w, s, r, Outcome(success), user, ByCompletion, id);
    } else {
      Same(w, w, id);
    }
    hide WriteState, CanMove, Outcome;
  }

  lemma EnqueueFollows(w: World, s: Session, user: string, id: Id)
    ensures var e := Enqueue(s, user); Follows(w, Step(w, e), CommitOf(w, e, id), id)
  {
    if s in w.tasks && w.tasks[s].Sending? && CanMove(w, s, w.tasks[s].id, Queued) {
      WriteFollows(w, s, w.tasks[s].id, Queued, user, ByTable, id);
    } else {
      Same(w, w, id);
    }
    hide WriteState, CanMove;
  }

  lemma QuietFollows(w: World, e: Event, id: Id)
    requires !Writes(e)
    ensures Follows(w, Step(w, e), None, id)
  {
    assert Past(w, id) + [] == Past(w, id);
  }

  lemma StepFollows(w: World, e: Event, id: Id)
    ensures Follows(w, Step(w, e), CommitOf(w, e, id), id)
  {
    hide Step, Follows, CanMove, OverrideAccepted, CanQueue, Outcome;
    match e {
      case Move(s, r, target, user) => MoveFollows(w, s, r, target, user, id);
      case Approve(s, r, user) => MoveFollows(w, s, r, Approved, user, id);
      case Override(s, r, user, reason) => OverrideFollows(w, s, r, user, reason, id);
      case Complete(s, r, success, user) => CompleteFollows(w, s, r, success, user, id);
      case Enqueue(s, user) => EnqueueFollows(w, s, user, id);
      case _ => QuietFollows(w, e, id);
    }
  }

  // ----- tasks, audit and override records -----

  function TasksAfter(w: World, e: Event): map<Session, Task> {
    match e
    case Approve(s, id, _) => if CanMove(w, s, id, Approved) then w.tasks[s := OweVerify(id)] else w.tasks
    case Complete(s, id, success, user) =>
      if CanMove(w, s, id, Outcome(success)) then w.tasks[s := OweAudit(id, success, user)] else w.tasks
    case BeginSend(s, id) =>
      if (s, id) in w.held && id in w.rows && w.held[(s, id)].state == Approved then w.tasks[s := Sending(id)]
      else w.tasks
    case LogCompletion(s) => if s in w.tasks && w.tasks[s].OweAudit? then w.tasks - {s} else w.tasks
    case Verify(s) =>
      if s in w.tasks && w.tasks[s].OweVerify? && (s, w.tasks[s].id) in w.held && w.tasks[s].id in w.rows
      then w.tasks - {s}
      else w.tasks
    case Enqueue(s, _) =>
      if s in w.tasks && w.tasks[s].Sending? && CanMove(w, s, w.tasks[s].id, Queued) then w.tasks - {s} else w.tasks
    case _ => w.tasks
  }

  function AuditAfter(w: World, e: Event): seq<Audit> {
    match e
    case LogCompletion(s) =>
      if s in w.tasks && w.tasks[s].OweAudit?
      then w.audit + [Audit(w.tasks[s].success, w.tasks[s].id, w.tasks[s].user)]
      else w.audit
    case PruneAudit(count) => if count <= |w.audit| then w.audit[count..] else []
    case _ => w.audit
  }

  lemma WriteTasks(w: World, s: Session, id: Id, target: State, user: string, cause: Cause)
    requires (s, id) in w.held && id in w.rows && id in w.past
    ensures WriteState(w, s, id, target, user, cause).tasks == w.tasks
  {
  }

  lemma WritingTasks(w: World, e: Event)
    requires Writes(e)
    ensures Step(w, e).tasks == TasksAfter(w, e)
  {
    match e {
      case Move(s, id, target, user) =>
        if CanMove(w, s, id, target) { WriteTasks(w, s, id, target, user, ByTable); }
      case Approve(s, id, user) =>
        if CanMove(w, s, id, Approved) { WriteTasks(w, s, id, Approved, user, ByTable); }
      case Complete(s, id, success, user) =>
        if CanMove(w, s, id, Outcome(success)) { WriteTasks(w, s, id, Outcome(success), user, ByCompletion); }
      case _ =>
    }
    hide CanMove, Outcome, Written, OverridesOf;
  }

  lemma StepTasks(w: World, e: Event)
    ensures Step(w, e).tasks == TasksAfter(w, e)
  {
    if Writes(e) {
      WritingTasks(w, e);
    } else {
      hide CanMove, Outcome, Written, OverridesOf, WriteState;
    }
  }

  lemma StepAudit(w: World, e: Event)
    ensures Step(w, e).audit == AuditAfter(w, e)
  {
    hide CanMove, Outcome, Written, OverridesOf;
  }

  lemma OverrideNotes(w: World, s: Session, r: Id, user: string, reason: Option<string>, id: Id)
    ensures var e := Override(s, r, user, reason);
            var v := Step(w, e);
            && OverridesOf(v, id)
            == OverridesOf(w, id) + (if CommitOf(w, e, id).Some? then [OverrideRecord(user, reason)] else [])
            && (id in v.overrides ==> id in w.overrides || id in w.past)
  {
    assert OverridesOf(w, id) + [] == OverridesOf(w, id);
    if OverrideAccepted(w, s, r, reason) {
      assert Step(w, Override(s, r, user, reason)).overrides
          == w.overrides[r := OverridesOf(w, r) + [OverrideRecord(user, reason)]];
    }
    hide WriteState, WriteTrust, OverrideAccepted;
  }

  /** Other events keep the records of a release that is stored after them. */
  lemma OthersKeepRecords(w: World, e: Event, id: Id)
    requires !e.Override?
    ensures var v := Step(w, e);
            && (id in v.rows ==> OverridesOf(v, id) == OverridesOf(w, id))
            && (id in v.overrides ==> id in w.overrides)
  {
    hide CanMove, Outcome, Written;
  }
}
