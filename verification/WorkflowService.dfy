/** The service operations, run step by step on the stored state, and the state that each leaves as a
    function of the one before. WorkflowOperations proves that any sequence of them ends where a run ends. */
module WorkflowService {
  import opened Results
  import opened Text
  import opened Workflow

  // ----- the state after one whole operation -----

  function Loaded(w: World, s: Session, id: Id): World {
    Step(w, Load(s, id))
  }

  function AfterTransition(w: World, s: Session, id: Id, target: State, user: string): World {
    if CanMove(Loaded(w, s, id), s, id, target)
    then Step(Step(Loaded(w, s, id), Move(s, id, target, user)), Refresh(s, id))
    else Loaded(w, s, id)
  }

  function AfterApprove(w: World, s: Session, id: Id, user: string): World {
    if CanMove(Loaded(w, s, id), s, id, Approved)
    then
      var committed := Step(Step(Loaded(w, s, id), Approve(s, id, user)), Refresh(s, id));
      Step(Step(committed, Verify(s)), Refresh(s, id))
    else Loaded(w, s, id)
  }

  function AfterOverride(w: World, s: Session, id: Id, user: string, reason: Option<string>): World {
    if OverrideAccepted(Loaded(w, s, id), s, id, reason)
    then Step(Step(Loaded(w, s, id), Override(s, id, user, reason)), Refresh(s, id))
    else Loaded(w, s, id)
  }

  function AfterBulkApprove(w: World, s: Session, ids: seq<Id>, user: string): World
    decreases |ids|
  {
    if ids == [] then w else AfterBulkApprove(AfterApprove(w, s, ids[0], user), s, ids[1..], user)
  }

  /** The ids of a bulk approval that succeed (`ok`) or fail (`!ok`), in order. */
  function BulkReport(w: World, s: Session, ids: seq<Id>, user: string, ok: bool): seq<Id>
    decreases |ids|
  {
    if ids == [] then []
    else
      (if CanMove(Loaded(w, s, ids[0]), s, ids[0], Approved) == ok then [ids[0]] else [])
      + BulkReport(AfterApprove(w, s, ids[0], user), s, ids[1..], user, ok)
  }

  lemma BulkNothing(w: World, s: Session, user: string)
    ensures AfterBulkApprove(w, s, [], user) == w
    ensures BulkReport(w, s, [], user, true) == [] && BulkReport(w, s, [], user, false) == []
  {
  }

  lemma BulkUnfold(w: World, s: Session, ids: seq<Id>, i: nat, user: string)
    requires i < |ids|
    ensures AfterBulkApprove(w, s, ids[i..], user)
         == AfterBulkApprove(AfterApprove(w, s, ids[i], user), s, ids[i + 1..], user)
    ensures BulkReport(w, s, ids[i..], user, true)
         == (if CanMove(Loaded(w, s, ids[i]), s, ids[i], Approved) then [ids[i]] else [])
            + BulkReport(AfterApprove(w, s, ids[i], user), s, ids[i + 1..], user, true)
    ensures BulkReport(w, s, ids[i..], user, false)
         == (if CanMove(Loaded(w, s, ids[i]), s, ids[i], Approved) then [] else [ids[i]])
            + BulkReport(AfterApprove(w, s, ids[i], user), s, ids[i + 1..], user, false)
  {
    assert ids[i..][1..] == ids[i + 1..];
  }

  datatype Reply = Ignored | Unmatched | Skipped | Done

  const SUCCESS_STATUSES := {"completed", "complete", "success"}
  const FAILURE_STATUSES := {"failed", "failure", "aborted", "bad"}

  /** The statuses that a callback may carry, in any case of letters. */
  predicate SaysDone(status: string) {
    SameText(status, "completed") || SameText(status, "complete") || SameText(status, "success")
  }

  predicate SaysFailed(status: string) {
    || SameText(status, "failed") || SameText(status, "failure")
    || SameText(status, "aborted") || SameText(status, "bad")
  }

  lemma PlainStatuses()
    ensures forall w :: w in SUCCESS_STATUSES + FAILURE_STATUSES ==> Lower(w) == w
  {
  }

  lemma StatusMeans(status: string)
    ensures Lower(status) in SUCCESS_STATUSES <==> SaysDone(status)
    ensures Lower(status) in FAILURE_STATUSES <==> SaysFailed(status)
  {
    PlainStatuses();
    hide Lower, SameText;
    forall w
      ensures w in SUCCESS_STATUSES + FAILURE_STATUSES ==> (SameText(status, w) <==> Lower(status) == w)
    {
      CaseMeans(status, w);
    }
  }

  function AfterHook(w: World, s: Session, id: Id, success: bool, user: string): World {
    if CanMove(Loaded(w, s, id), s, id, Outcome(success))
    then
      var committed := Step(Step(Loaded(w, s, id), Complete(s, id, success, user)), Refresh(s, id));
      Step(committed, LogCompletion(s))
    else Loaded(w, s, id)
  }

  function AfterStartSend(w: World, s: Session, id: Id): World {
    Step(Loaded(w, s, id), BeginSend(s, id))
  }

  function AfterStoreJob(w: World, s: Session, job: Option<string>): World {
    if job.Some? then Step(w, StoreJob(s, job.value)) else w
  }

  function AfterFinishSend(w: World, s: Session, job: Option<string>, user: string): World {
    var stored := AfterStoreJob(w, s, job);
    if s in w.tasks && w.tasks[s].Sending? && CanMove(stored, s, w.tasks[s].id, Queued)
    then Step(Step(stored, Enqueue(s, user)), Refresh(s, w.tasks[s].id))
    else stored
  }

  // ----- the service -----

  /** The copy of a stored release that a session works from: the one it has, else what is stored. */
  function CopyFor(rows: map<Id, Release>, held: map<(Session, Id), Release>, s: Session, id: Id): Release
    requires id in rows
  {
    if (s, id) in held then held[(s, id)] else rows[id]
  }

  /** A row after a commit of a new state: a column is written unless its new value is the copy's. */
  function Stored(stored: Release, copy: Release, target: State, user: string): Release {
    stored.(state := if copy.state == target then stored.state else target,
            changedBy := if copy.changedBy == user then stored.changedBy else user)
  }

  /** A row after an override: approved and admin verified. */
  function Overridden(stored: Release, copy: Release, user: string): Release {
    Stored(stored, copy, Approved, user).(
      trust := if copy.trust == AdminVerified then stored.trust else AdminVerified)
  }

  /** The override records of a release. */
  function Noted(overrides: map<Id, seq<OverrideRecord>>, id: Id): seq<OverrideRecord> {
    if id in overrides then overrides[id] else []
  }

  class ReleaseService {
    var rows: map<Id, Release>
    var audit: seq<Audit>
    var overrides: map<Id, seq<OverrideRecord>>
    var held: map<(Session, Id), Release>
    var tasks: map<Session, Task>
    ghost var past: map<Id, seq<Commit>>

    ghost function W(): World
      reads this
    {
      World(rows, past, audit, overrides, held, tasks)
    }

    /** Every stored release has a recorded history. */
    ghost predicate Valid()
      reads this
    {
      rows.Keys <= past.Keys
    }

    constructor ()
      ensures Valid() && W() == EMPTY_WORLD
    {
      rows, audit, overrides, held, tasks, past := map[], [], map[], map[], map[], map[];
    }

    /** A new row, kept by the session that stores it. */
    method InsertRelease(s: Session, id: Id, release: Release)
      requires Valid() && id !in past
      requires release.state == Discovered && release.trust == Unverified && release.job == None
      modifies this
      ensures Valid() && W() == Step(old(W()), Insert(s, id, release))
      ensures rows == old(rows)[id := release] && (s, id) in held && held[(s, id)] == release
      ensures past == old(past)[id := []]
    {
      rows := rows[id := release];
      held := held[(s, id) := release];
      past := past[id := []];
    }

    /** The analysis stores its flag. */
    method StoreAssessment(s: Session, id: Id, flag: Flag)
      requires Valid() && (s, id) in held && id in rows
      modifies this
      ensures Valid() && W() == Step(old(W()), Assess(s, id, flag))
      ensures past == old(past) && id in rows && (s, id) in held
      ensures var stored, seen := old(rows)[id], old(held)[(s, id)];
              rows == old(rows)[id := stored.(flag := Written(stored.flag, seen.flag, flag))]
    {
      rows := rows[id := rows[id].(flag := Written(rows[id].flag, held[(s, id)].flag, flag))];
      held := held[(s, id) := held[(s, id)].(flag := flag)];
    }

    /** The trust level that follows from the analysis. */
    method StoreTrust(s: Session, id: Id, developer: bool)
      requires Valid() && (s, id) in held && id in rows
      modifies this
      ensures Valid() && W() == Step(old(W()), Judge(s, id, developer))
      ensures past == old(past) && id in rows && (s, id) in held
      ensures var t := if developer then DeveloperVerified else Unverified;
              var stored, seen := old(rows)[id], old(held)[(s, id)];
              && rows == old(rows)[id := stored.(trust := Written(stored.trust, seen.trust, t))]
              && held[(s, id)] == seen.(trust := t)
    {
      var t := if developer then DeveloperVerified else Unverified;
      rows := rows[id := rows[id].(trust := Written(rows[id].trust, held[(s, id)].trust, t))];
      held := held[(s, id) := held[(s, id)].(trust := t)];
    }

    /** The select by id: the session keeps the copy it already has. */
    method GetReleaseById(s: Session, id: Id) returns (found: Option<Release>)
      requires Valid()
      modifies this
      ensures Valid() && W() == Loaded(old(W()), s, id) && rows == old(rows) && past == old(past)
      ensures overrides == old(overrides) && audit == old(audit) && tasks == old(tasks)
      ensures id in rows ==> (s, id) in held && held[(s, id)] == CopyFor(old(rows), old(held), s, id)
      ensures found == if id in rows then Some(held[(s, id)]) else None
    {
      if id !in rows {
        return None;
      }
      if (s, id) !in held {
        held := held[(s, id) := rows[id]];
      }
      found := Some(held[(s, id)]);
    }

    method CommitState(s: Session, id: Id, target: State, user: string, ghost cause: Cause)
      requires Valid() && (s, id) in held && id in rows
      modifies this
      ensures Valid() && W() == WriteState(old(W()), s, id, target, user, cause)
      ensures rows == old(rows)[id := Stored(old(rows)[id], old(held)[(s, id)], target, user)]
    {
      var stored, seen := rows[id], held[(s, id)];
      var state := Written(stored.state, seen.state, target);
      held := held[(s, id) := seen.(state := target, changedBy := user)];
      rows := rows[id := stored.(state := state, changedBy := Written(stored.changedBy, seen.changedBy, user))];
      past := past[id := past[id] + [Commit(stored.state, seen.state, state, cause)]];
    }

    /** Marks the release as admin verified; the commit that stores it is the caller's. */
    method ApplyAdminVerification(s: Session, id: Id)
      requires Valid() && (s, id) in held && id in rows
      modifies this
      ensures Valid() && W() == WriteTrust(old(W()), s, id)
      ensures overrides == old(overrides)
    {
      rows := rows[id := rows[id].(trust := Written(rows[id].trust, held[(s, id)].trust, AdminVerified))];
      held := held[(s, id) := held[(s, id)].(trust := AdminVerified)];
    }

    method CommitApproval(s: Session, id: Id, user: string)
      requires Valid() && CanMove(W(), s, id, Approved)
      modifies this
      ensures Valid() && W() == Step(old(W()), Approve(s, id, user))
      ensures id in rows && (s, id) in held && s in tasks && tasks[s] == OweVerify(id)
      ensures rows == old(rows)[id := Stored(old(rows)[id], old(held)[(s, id)], Approved, user)]
      ensures rows[id].state == Approved
    {
      CommitState(s, id, Approved, user, ByTable);
      tasks := tasks[s := OweVerify(id)];
    }

    method CommitVerification(s: Session, id: Id)
      requires Valid() && (s, id) in held && id in rows && s in tasks && tasks[s] == OweVerify(id)
      modifies this
      ensures Valid() && W() == Step(old(W()), Verify(s))
      ensures id in rows && (s, id) in held
      ensures rows == old(rows)[id := old(rows)[id].(
                trust := if old(held)[(s, id)].trust == AdminVerified then old(rows)[id].trust else AdminVerified)]
    {
      ApplyAdminVerification(s, id);
      tasks := tasks - {s};
    }

    method CommitOverride(s: Session, id: Id, user: string, reason: Option<string>)
      requires Valid() && OverrideAccepted(W(), s, id, reason)
      modifies this
      ensures Valid() && W() == Step(old(W()), Override(s, id, user, reason))
      ensures id in rows && (s, id) in held
      ensures rows == old(rows)[id := Overridden(old(rows)[id], old(held)[(s, id)], user)]
      ensures overrides == old(overrides)[id := Noted(old(overrides), id) + [OverrideRecord(user, reason)]]
    {
      CommitState(s, id, Approved, user, ByOverride);
      ApplyAdminVerification(s, id);
      overrides := overrides[id := (if id in overrides then overrides[id] else []) + [OverrideRecord(user, reason)]];
    }

    method CommitCompletion(s: Session, id: Id, success: bool, user: string)
      requires Valid() && CanMove(W(), s, id, Outcome(success))
      modifies this
      ensures Valid() && W() == Step(old(W()), Complete(s, id, success, user))
      ensures id in rows && (s, id) in held && s in tasks && tasks[s] == OweAudit(id, success, user)
      ensures rows == old(rows)[id := Stored(old(rows)[id], old(held)[(s, id)], Outcome(success), user)]
      ensures audit == old(audit)
    {
      CommitState(s, id, Outcome(success), user, ByCompletion);
      tasks := tasks[s := OweAudit(id, success, user)];
    }

    method LogAction(s: Session, id: Id, success: bool, user: string)
      requires Valid() && s in tasks && tasks[s] == OweAudit(id, success, user)
      modifies this
      ensures Valid() && W() == Step(old(W()), LogCompletion(s))
      ensures rows == old(rows) && audit == old(audit) + [Audit(success, id, user)]
    {
      audit := audit + [Audit(success, id, user)];
      tasks := tasks - {s};
    }

    method RefreshCopy(s: Session, id: Id)
      requires Valid() && (s, id) in held && id in rows
      modifies this
      ensures Valid() && W() == Step(old(W()), Refresh(s, id))
      ensures rows == old(rows) && past == old(past) && tasks == old(tasks)
      ensures overrides == old(overrides) && audit == old(audit)
      ensures (s, id) in held && held[(s, id)] == rows[id]
    {
      held := held[(s, id) := rows[id]];
    }

    method CommitMove(s: Session, id: Id, target: State, user: string)
      requires Valid() && CanMove(W(), s, id, target)
      modifies this
      ensures Valid() && W() == Step(old(W()), Move(s, id, target, user))
      ensures id in rows && (s, id) in held && past.Keys == old(past.Keys)
      ensures rows == old(rows)[id := Stored(old(rows)[id], old(held)[(s, id)], target, user)]
      ensures rows[id].state == target
    {
      CommitState(s, id, target, user, ByTable);
      hide Outcome;
    }

    /** Moves a release to `target` if the session's copy allows it; otherwise raises and stores nothing. */
    method TransitionState(s: Session, id: Id, target: State, user: string) returns (r: Result<Release>)
      requires Valid()
      modifies this
      ensures Valid() && W() == AfterTransition(old(W()), s, id, target, user)
      ensures r.Success? <==> CanMove(Loaded(old(W()), s, id), s, id, target)
      ensures r.Success? <==> id in old(rows) && CopyFor(old(rows), old(held), s, id).state in Sources(target)
      ensures r.Success? ==> id in rows && r.value == rows[id] && rows[id].state == target
      ensures r.Success? ==> (s, id) in held && held[(s, id)] == rows[id] && past.Keys == old(past.Keys)
      ensures r.Success? ==>
        rows == old(rows)[id := Stored(old(rows)[id], CopyFor(old(rows), old(held), s, id), target, user)]
      ensures r.Failure? ==> rows == old(rows) && past == old(past)
    {
      var found := GetReleaseById(s, id);
      if found.None? {
        return Failure("Release not found");
      }
      var allowed := Allowed(found.value.state);
      SourcesMean(found.value.state, target);
      if target !in allowed {
        return Failure("Cannot transition");
      }
      hide Step, Written, Allowed, Sources;
      CommitMove(s, id, target, user);
      RefreshCopy(s, id);
      r := Success(held[(s, id)]);
    }

    /** Approval: the transition, then the admin trust, in two commits. */
    method ApproveRelease(s: Session, id: Id, user: string) returns (r: Result<Release>)
      requires Valid()
      modifies this
      ensures Valid() && W() == AfterApprove(old(W()), s, id, user)
      ensures r.Success? <==> CanMove(Loaded(old(W()), s, id), s, id, Approved)
      ensures r.Success? <==> id in old(rows) && CopyFor(old(rows), old(held), s, id).state in Sources(Approved)
      ensures r.Success? ==> id in rows && rows[id].state == Approved && rows[id].trust == AdminVerified
      ensures r.Success? ==>
        var row := Stored(old(rows)[id], CopyFor(old(rows), old(held), s, id), Approved, user);
        rows == old(rows)[id := row.(trust := AdminVerified)]
      ensures r.Failure? ==> rows == old(rows) && past == old(past)
    {
      var found := GetReleaseById(s, id);
      if found.None? {
        return Failure("Release not found");
      }
      SourcesMean(found.value.state, Approved);
      if Approved !in Allowed(found.value.state) {
        return Failure("Cannot transition");
      }
      hide Step, Allowed, Sources;
      CommitApproval(s, id, user);
      RefreshCopy(s, id);
      CommitVerification(s, id);
      RefreshCopy(s, id);
      r := Success(held[(s, id)]);
    }

    /** Override: approved and admin verified from whatever state, if a reason is given where one is needed. */
    method OverrideRelease(s: Session, id: Id, user: string, reason: Option<string>) returns (r: Result<Release>)
      requires Valid()
      modifies this
      ensures Valid() && W() == AfterOverride(old(W()), s, id, user, reason)
      ensures r.Success? <==> OverrideAccepted(Loaded(old(W()), s, id), s, id, reason)
      ensures r.Success? <==>
        && id in old(rows)
        && var flag := CopyFor(old(rows), old(held), s, id).flag;
        && ((flag != Restricted && flag != Blocked) || (reason.Some? && reason.value != ""))
      ensures r.Success? ==>
        && rows == old(rows)[id := Overridden(old(rows)[id], CopyFor(old(rows), old(held), s, id), user)]
        && overrides == old(overrides)[id := Noted(old(overrides), id) + [OverrideRecord(user, reason)]]
      ensures r.Failure? ==> rows == old(rows) && overrides == old(overrides) && past == old(past)
    {
      var found := GetReleaseById(s, id);
      if found.None? {
        return Failure("Release not found");
      }
      if found.value.flag == Restricted || found.value.flag == Blocked {
        if reason.None? || reason.value == "" {
          return Failure("Override reason is required for restricted or blocked releases");
        }
      }
      hide Step;
      CommitOverride(s, id, user, reason);
      RefreshCopy(s, id);
      r := Success(held[(s, id)]);
    }

    /** Approves each release in turn and reports which succeeded and which failed. */
    method BulkApprove(s: Session, ids: seq<Id>, user: string) returns (succeeded: seq<Id>, failed: seq<Id>)
      requires Valid()
      modifies this
      ensures Valid() && W() == AfterBulkApprove(old(W()), s, ids, user)
      ensures succeeded == BulkReport(old(W()), s, ids, user, true)
      ensures failed == BulkReport(old(W()), s, ids, user, false)
    {
      hide *;
      succeeded, failed := [], [];
      var i := 0;
      assert ids[0..] == ids;
      while i < |ids|
        invariant 0 <= i <= |ids| && Valid()
        invariant AfterBulkApprove(W(), s, ids[i..], user) == AfterBulkApprove(old(W()), s, ids, user)
        invariant succeeded + BulkReport(W(), s, ids[i..], user, true) == BulkReport(old(W()), s, ids, user, true)
        invariant failed + BulkReport(W(), s, ids[i..], user, false) == BulkReport(old(W()), s, ids, user, false)
      {
        BulkUnfold(W(), s, ids, i, user);
        var r := ApproveRelease(s, ids[i], user);
        if r.Success? {
          succeeded := succeeded + [ids[i]];
        } else {
          failed := failed + [ids[i]];
        }
        i := i + 1;
      }
      assert ids[i..] == [];
      BulkNothing(W(), s, user);
    }

    /** A callback from a download client, after the release it speaks of has been matched. */
    method ReceiveHook(s: Session, matched: Option<Id>, status: string, user: string) returns (reply: Reply)
      requires Valid()
      requires matched.Some? ==> matched.value in rows
      modifies this
      ensures Valid()
      ensures reply == Ignored <==> !SaysDone(status) && !SaysFailed(status)
      ensures reply == Unmatched <==> reply != Ignored && matched.None?
      ensures matched.None? || reply == Ignored ==> W() == old(W())
      ensures reply in {Skipped, Done} ==>
                && W() == AfterHook(old(W()), s, matched.value, SaysDone(status), user)
                && (reply == Done <==> CopyFor(old(rows), old(held), s, matched.value).state == Queued)
      ensures reply == Skipped ==> rows == old(rows) && audit == old(audit)
      ensures reply == Done ==>
                var id, outcome := matched.value, if SaysDone(status) then Downloaded else DownloadFailed;
                && rows == old(rows)[id := Stored(old(rows)[id], CopyFor(old(rows), old(held), s, id), outcome, user)]
                && audit == old(audit) + [Audit(SaysDone(status), id, user)]
    {
      StatusMeans(status);
      hide Lower, SaysDone, SaysFailed;
      var statusLower := Lower(status);
      var success, failure := statusLower in SUCCESS_STATUSES, statusLower in FAILURE_STATUSES;
      if !success && !failure {
        return Ignored;
      }
      if matched.None? {
        return Unmatched;
      }
      var id := matched.value;
      var found := GetReleaseById(s, id);
      if found.value.state != Queued {
        return Skipped;
      }
      CompleteDownload(s, id, success, user);
      reply := Done;
    }

    /** The transition of a finished download and, in a later commit, its audit row. */
    method CompleteDownload(s: Session, id: Id, success: bool, user: string)
      requires Valid() && (s, id) in held && id in rows && held[(s, id)].state == Queued
      modifies this
      ensures Valid()
      ensures W() == Step(Step(Step(old(W()), Complete(s, id, success, user)), Refresh(s, id)), LogCompletion(s))
      ensures rows == old(rows)[id := Stored(old(rows)[id], old(held)[(s, id)], Outcome(success), user)]
      ensures audit == old(audit) + [Audit(success, id, user)]
    {
      hide Step;
      CommitCompletion(s, id, success, user);
      RefreshCopy(s, id);
      LogAction(s, id, success, user);
    }

    /** The first half of a send: only an approved copy goes on to the download client. */
    method StartSend(s: Session, id: Id) returns (ok: bool)
      requires Valid()
      modifies this
      ensures Valid() && W() == AfterStartSend(old(W()), s, id)
      ensures ok <==> id in rows && (s, id) in held && held[(s, id)].state == Approved
      ensures ok ==> s in tasks && tasks[s] == Sending(id)
    {
      var found := GetReleaseById(s, id);
      if found.None? || found.value.state != Approved {
        return false;
      }
      tasks := tasks[s := Sending(id)];
      ok := true;
    }

    method CommitJob(s: Session, job: string)
      requires Valid() && s in tasks && tasks[s].Sending?
      modifies this
      ensures Valid() && W() == Step(old(W()), StoreJob(s, job))
      ensures past == old(past) && held == old(held) && tasks == old(tasks)
      ensures var id := tasks[s].id;
              rows == if id in old(rows) then old(rows)[id := old(rows)[id].(job := Some(job))] else old(rows)
    {
      if tasks[s].id in rows {
        rows := rows[tasks[s].id := rows[tasks[s].id].(job := Some(job))];
      }
    }

    method CommitQueueing(s: Session, id: Id, user: string)
      requires Valid() && s in tasks && tasks[s] == Sending(id) && CanMove(W(), s, id, Queued)
      modifies this
      ensures Valid() && W() == Step(old(W()), Enqueue(s, user))
      ensures id in rows && (s, id) in held
      ensures rows == old(rows)[id := Stored(old(rows)[id], old(held)[(s, id)], Queued, user)]
    {
      CommitState(s, id, Queued, user, ByTable);
      tasks := tasks - {s};
    }

    /** The second half, after the client took the job: store the job id if there is one, then queue.
        The job id stays stored even when the transition is refused. */
    method FinishSend(s: Session, job: Option<string>, user: string) returns (r: Result<Id>)
      requires Valid()
      requires s in tasks && tasks[s].Sending? && (s, tasks[s].id) in held
      modifies this
      ensures Valid() && W() == AfterFinishSend(old(W()), s, job, user)
      ensures var id := old(tasks)[s].id;
              r.Success? <==> id in old(rows) && old(held)[(s, id)].state == Approved
      ensures var id := old(tasks)[s].id;
              id !in old(rows) ==> rows == old(rows)
      ensures var id := old(tasks)[s].id;
              id in old(rows) ==>
                var stored := if job.Some? then old(rows)[id].(job := job) else old(rows)[id];
                rows == old(rows)[id := if r.Success? then Stored(stored, old(held)[(s, id)], Queued, user) else stored]
    {
      var id := tasks[s].id;
      SourcesMean(held[(s, id)].state, Queued);
      if job.Some? {
        CommitJob(s, job.value);
      }
      if id !in rows {
        return Failure("Release not found");
      }
      if Queued !in Allowed(held[(s, id)].state) {
        return Failure("Cannot transition");
      }
      hide Step, Allowed, Sources, Stored;
      CommitQueueing(s, id, user);
      RefreshCopy(s, id);
      r := Success(id);
    }
  }
}
