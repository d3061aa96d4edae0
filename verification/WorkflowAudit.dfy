/** The records that commits leave behind, over whole runs: one for every override, and for the finished
    downloads a ledger of the audit rows that are written, still owed and lost. */
module WorkflowAudit {
  import opened Results
  import opened Workflow
  import opened WorkflowRuns
  import opened WorkflowSteps
  import opened WorkflowQueue

  // ----- the override records -----

  predicate OverridesNoted(w: World, id: Id) {
    && (id in w.rows ==> id in w.past && |OverridesOf(w, id)| == Count(Past(w, id), Overridden))
    && (id !in w.past ==> id !in w.overrides)
  }

  lemma OverrideCommit(w: World, e: Event, id: Id)
    requires CommitOf(w, e, id).Some?
    ensures CommitOf(w, e, id).value.cause == ByOverride <==> e.Override?
  {
    hide CanMove, CanQueue, Written;
  }

  lemma RecordsFollow(w: World, e: Event, id: Id)
    ensures var v := Step(w, e);
            && (id in v.rows ==>
                  |OverridesOf(v, id)|
                  == |OverridesOf(w, id)| + if e.Override? && CommitOf(w, e, id).Some? then 1 else 0)
            && (id in v.overrides ==> id in w.overrides || id in w.past)
  {
    if e.Override? {
      OverrideNotes(w, e.s, e.id, e.user, e.reason, id);
    } else {
      OthersKeepRecords(w, e, id);
    }
    hide Step, CommitOf, OverridesOf;
  }

  lemma StoredHasPast(w: World, e: Event, id: Id)
    requires id in w.rows ==> id in w.past
    ensures id in Step(w, e).rows ==> id in Step(w, e).past
    ensures id in w.past ==> id in Step(w, e).past
    ensures id in Step(w, e).rows && id !in w.rows ==> id !in w.past && Past(Step(w, e), id) == []
  {
    StepFollows(w, e, id);
    hide Step, CommitOf;
  }

  lemma StepNotesOverrides(w: World, e: Event, id: Id)
    requires OverridesNoted(w, id)
    ensures OverridesNoted(Step(w, e), id)
  {
    RecordsFollow(w, e, id);
    StoredHasPast(w, e, id);
    StepCount(w, e, id, Overridden);
    if CommitOf(w, e, id).Some? {
      OverrideCommit(w, e, id);
    }
    assert Past(w, id) == [] ==> Count(Past(w, id), Overridden) == 0;
    assert id !in w.overrides ==> OverridesOf(w, id) == [];
    hide Step, CommitOf, OverridesOf, Count;
  }

  lemma {:induction false} RunNotesOverrides(w: World, events: seq<Event>, id: Id)
    requires OverridesNoted(w, id)
    ensures OverridesNoted(Run(w, events), id)
    decreases |events|
  {
    hide Step, OverridesNoted;
    if events != [] {
      StepNotesOverrides(w, events[0], id);
      RunNotesOverrides(Step(w, events[0]), events[1..], id);
    }
  }

  /** In every run a stored release has one override record for every override of it, and no others. */
  lemma OverridesAreRecorded(events: seq<Event>, id: Id)
    requires id in Run(EMPTY_WORLD, events).rows
    ensures var w := Run(EMPTY_WORLD, events); |OverridesOf(w, id)| == Count(Past(w, id), Overridden)
  {
    assert OverridesNoted(EMPTY_WORLD, id);
    hide Step, Count, OverridesOf;
    RunNotesOverrides(EMPTY_WORLD, events, id);
  }

  /** The session holds the release, it is stored, and the copy is neither restricted nor blocked or a
      reason is given. */
  predicate MayOverride(w: World, s: Session, id: Id, reason: Option<string>) {
    && (s, id) in w.held && id in w.rows && id in w.past
    && (w.held[(s, id)].flag == Restricted || w.held[(s, id)].flag == Blocked ==> reason.Some? && reason.value != "")
  }

  /** Exactly when an event adds a record, and which; deleting the release removes its records. */
  lemma StepRecords(w: World, e: Event, id: Id)
    ensures OverridesOf(Step(w, e), id)
         == match e
            case Override(s, r, user, reason) =>
              if r == id && MayOverride(w, s, id, reason) then OverridesOf(w, id) + [OverrideRecord(user, reason)]
              else OverridesOf(w, id)
            case Delete(r) => if r == id then [] else OverridesOf(w, id)
            case _ => OverridesOf(w, id)
  {
    if e.Override? {
      assert e.id == id ==> (MayOverride(w, e.s, id, e.reason) <==> OverrideAccepted(w, e.s, id, e.reason));
      OverrideNotes(w, e.s, e.id, e.user, e.reason, id);
      assert OverridesOf(w, id) + [] == OverridesOf(w, id);
      hide Step, OverridesOf, MayOverride, OverrideAccepted;
    } else {
      hide CanMove, Outcome, Written;
    }
  }

  /** The record stems from an override along the run that was made from a copy neither restricted nor blocked,
      or with a reason. */
  ghost predicate IsReasoned(events: seq<Event>, id: Id, record: OverrideRecord) {
    exists k, s :: 0 <= k < |events| && IsReasonedAt(events, k, s, id, record)
  }

  ghost predicate IsReasonedAt(events: seq<Event>, k: nat, s: Session, id: Id, record: OverrideRecord)
    requires k < |events|
  {
    && events[k] == Override(s, id, record.user, record.reason)
    && MayOverride(Run(EMPTY_WORLD, events[..k]), s, id, record.reason)
  }

  lemma RunLast(w: World, events: seq<Event>)
    requires events != []
    ensures Run(w, events) == Step(Run(w, events[..|events| - 1]), events[|events| - 1])
  {
    var front, last := events[..|events| - 1], events[|events| - 1..];
    assert events == front + last && last[1..] == [];
    hide Step;
    RunAppend(w, front, last);
    assert Run(Run(w, front), last) == Run(Step(Run(w, front), last[0]), []);
  }

  lemma ReasonedBefore(events: seq<Event>, id: Id, record: OverrideRecord)
    requires events != [] && IsReasoned(events[..|events| - 1], id, record)
    ensures IsReasoned(events, id, record)
  {
    hide MayOverride, Run;
    var front := events[..|events| - 1];
    var k, s :| 0 <= k < |front| && IsReasonedAt(front, k, s, id, record);
    assert front[..k] == events[..k] && front[k] == events[k];
    assert IsReasonedAt(events, k, s, id, record);
  }

  /** In every run, every override record of a release has a non-empty reason, or its session held the
      release as neither restricted nor blocked. */
  lemma {:induction false} OverridesAreReasoned(events: seq<Event>, id: Id)
    ensures forall record :: record in OverridesOf(Run(EMPTY_WORLD, events), id) ==> IsReasoned(events, id, record)
    decreases |events|
  {
    if events != [] {
      var front, e := events[..|events| - 1], events[|events| - 1];
      var w := Run(EMPTY_WORLD, front);
      RunLast(EMPTY_WORLD, events);
      OverridesAreReasoned(front, id);
      StepRecords(w, e, id);
      hide Step, Run, OverridesOf, MayOverride, IsReasoned;
      forall record | record in OverridesOf(Step(w, e), id)
        ensures IsReasoned(events, id, record)
      {
        if record in OverridesOf(w, id) {
          ReasonedBefore(events, id, record);
        } else {
          NewRecord(events, id, record);
        }
      }
    }
  }

  lemma NewRecord(events: seq<Event>, id: Id, record: OverrideRecord)
    requires events != []
    requires var e := events[|events| - 1];
             && e.Override? && e.id == id && record == OverrideRecord(e.user, e.reason)
             && MayOverride(Run(EMPTY_WORLD, events[..|events| - 1]), e.s, id, e.reason)
    ensures IsReasoned(events, id, record)
  {
    hide MayOverride, Run;
    assert IsReasonedAt(events, |events| - 1, events[|events| - 1].s, id, record);
  }

  // ----- completion rows: written, owed, lost -----

  function Logged(audit: seq<Audit>, id: Id, success: bool): nat {
    if audit == [] then 0
    else Logged(audit[1..], id, success) + if audit[0].id == id && audit[0].success == success then 1 else 0
  }

  lemma {:induction false} LoggedAppend(audit: seq<Audit>, more: seq<Audit>, id: Id, success: bool)
    ensures Logged(audit + more, id, success) == Logged(audit, id, success) + Logged(more, id, success)
  {
    if audit == [] {
      assert audit + more == more;
    } else {
      LoggedAppend(audit[1..], more, id, success);
      assert (audit + more)[1..] == audit[1..] + more;
    }
  }

  predicate Owes(task: Task, id: Id, success: bool) {
    task.OweAudit? && task.id == id && task.success == success
  }

  /** The sessions that have committed a completion and not yet logged it. */
  function Owing(tasks: map<Session, Task>, id: Id, success: bool): set<Session> {
    set s | s in tasks && Owes(tasks[s], id, success)
  }

  function Owed(tasks: map<Session, Task>, id: Id, success: bool): nat {
    |Owing(tasks, id, success)|
  }

  function OwedBy(tasks: map<Session, Task>, s: Session, id: Id, success: bool): nat {
    if s in tasks && Owes(tasks[s], id, success) then 1 else 0
  }

  lemma TaskEnds(tasks: map<Session, Task>, s: Session, id: Id, success: bool)
    ensures Owed(tasks - {s}, id, success) == Owed(tasks, id, success) - OwedBy(tasks, s, id, success)
  {
    hide Owes;
    assert Owing(tasks - {s}, id, success) == Owing(tasks, id, success) - {s};
  }

  lemma TaskBegins(tasks: map<Session, Task>, s: Session, task: Task, id: Id, success: bool)
    ensures Owed(tasks[s := task], id, success)
         == Owed(tasks, id, success) - OwedBy(tasks, s, id, success) + if Owes(task, id, success) then 1 else 0
  {
    TaskEnds(tasks, s, id, success);
    hide Owes;
    assert Owing(tasks[s := task], id, success)
        == Owing(tasks - {s}, id, success) + if Owes(task, id, success) then {s} else {};
  }

  /** The rows of an outcome that an event makes impossible or removes: a session takes up another task
      before it has logged, or audit retention drops rows. */
  function LostBy(w: World, e: Event, id: Id, success: bool): nat {
    match e
    case Approve(s, r, _) => if CanMove(w, s, r, Approved) then OwedBy(w.tasks, s, id, success) else 0
    case Complete(s, r, b, _) => if CanMove(w, s, r, Outcome(b)) then OwedBy(w.tasks, s, id, success) else 0
    case BeginSend(s, r) =>
      if (s, r) in w.held && r in w.rows && w.held[(s, r)].state == Approved then OwedBy(w.tasks, s, id, success)
      else 0
    case PruneAudit(count) => Logged(w.audit[..if count <= |w.audit| then count else |w.audit|], id, success)
    case _ => 0
  }

  function Lost(w: World, events: seq<Event>, id: Id, success: bool): nat
    decreases |events|
  {
    if events == [] then 0
    else LostBy(w, events[0], id, success) + Lost(Step(w, events[0]), events[1..], id, success)
  }

  /** Rows written and rows still owed. */
  function Account(w: World, id: Id, success: bool): nat {
    Logged(w.audit, id, success) + Owed(w.tasks, id, success)
  }

  predicate Completes(w: World, e: Event, id: Id, success: bool) {
    e.Complete? && e.id == id && e.success == success && CanMove(w, e.s, id, Outcome(success))
  }

  /** What an event adds to the account is a completion that it commits, less what it loses. */
  lemma TasksBalance(w: World, e: Event, id: Id, success: bool)
    requires !e.LogCompletion? && !e.PruneAudit?
    ensures Owed(TasksAfter(w, e), id, success) + LostBy(w, e, id, success)
         == Owed(w.tasks, id, success) + if Completes(w, e, id, success) then 1 else 0
  {
    hide CanMove, Owed, Outcome;
    match e {
      case Approve(s, r, user) => TaskBegins(w.tasks, s, OweVerify(r), id, success);
      case Complete(s, r, b, user) => TaskBegins(w.tasks, s, OweAudit(r, b, user), id, success);
      case BeginSend(s, r) => TaskBegins(w.tasks, s, Sending(r), id, success);
      case Verify(s) => TaskEnds(w.tasks, s, id, success);
      case Enqueue(s, user) => TaskEnds(w.tasks, s, id, success);
      case _ =>
    }
  }

  lemma LogBalance(w: World, s: Session, id: Id, success: bool)
    ensures Logged(AuditAfter(w, LogCompletion(s)), id, success) + Owed(TasksAfter(w, LogCompletion(s)), id, success)
         == Account(w, id, success)
  {
    hide Owed, Logged;
    if s in w.tasks && w.tasks[s].OweAudit? {
      var row := Audit(w.tasks[s].success, w.tasks[s].id, w.tasks[s].user);
      LoggedAppend(w.audit, [row], id, success);
      LoggedOne(row, id, success);
      TaskEnds(w.tasks, s, id, success);
    }
  }

  lemma LoggedOne(row: Audit, id: Id, success: bool)
    ensures Logged([row], id, success) == if row.id == id && row.success == success then 1 else 0
  {
    assert [row][1..] == [];
  }

  lemma PruneBalance(w: World, count: nat, id: Id, success: bool)
    ensures Logged(AuditAfter(w, PruneAudit(count)), id, success) + LostBy(w, PruneAudit(count), id, success)
         == Logged(w.audit, id, success)
  {
    var n := if count <= |w.audit| then count else |w.audit|;
    assert w.audit == w.audit[..n] + w.audit[n..];
    LoggedAppend(w.audit[..n], w.audit[n..], id, success);
  }

  lemma StepBalance(w: World, e: Event, id: Id, success: bool)
    ensures Account(Step(w, e), id, success) + LostBy(w, e, id, success)
         == Account(w, id, success) + if Completes(w, e, id, success) then 1 else 0
  {
    StepTasks(w, e);
    StepAudit(w, e);
    if e.LogCompletion? {
      LogBalance(w, e.s, id, success);
    } else if e.PruneAudit? {
      PruneBalance(w, e.count, id, success);
    } else {
      TasksBalance(w, e, id, success);
    }
    hide Step, Owed, Logged, CanMove;
  }

  lemma CompletionCommit(w: World, e: Event, id: Id, success: bool)
    ensures var c := CommitOf(w, e, id);
            Completes(w, e, id, success) <==> c.Some? && Counts(Finished(success), c.value)
  {
    hide CanQueue, OverrideAccepted;
  }

  lemma {:induction false} RunBalance(w: World, events: seq<Event>, id: Id, success: bool)
    ensures Account(Run(w, events), id, success) + Lost(w, events, id, success) + Count(Past(w, id), Finished(success))
         == Account(w, id, success) + Count(Past(Run(w, events), id), Finished(success))
    decreases |events|
  {
    if events != [] {
      StepBalance(w, events[0], id, success);
      CompletionCommit(w, events[0], id, success);
      StepCount(w, events[0], id, Finished(success));
      hide Step, Account, LostBy, Count, CommitOf, Counts, Completes;
      RunBalance(Step(w, events[0]), events[1..], id, success);
    }
  }

  /** Completion rows that were not written: still owed, or lost along the run. */
  function Unlogged(events: seq<Event>, id: Id, success: bool): nat {
    Owed(Run(EMPTY_WORLD, events).tasks, id, success) + Lost(EMPTY_WORLD, events, id, success)
  }

  /** For every run and either outcome: rows written and not written, and plain commits from the queue to the
      outcome, are together the exits from the queue to it and the late callbacks. */
  lemma AuditLedger(events: seq<Event>, id: Id, success: bool)
    ensures var w := Run(EMPTY_WORLD, events); var past := Past(w, id);
            && Logged(w.audit, id, success) + Unlogged(events, id, success) + Count(past, Plain(success))
            == Count(past, Exit(Outcome(success))) + Count(past, Late(success))
  {
    RunBalance(EMPTY_WORLD, events, id, success);
    OutcomeBalance(Past(Run(EMPTY_WORLD, events), id), success);
    assert Owing(EMPTY_WORLD.tasks, id, success) == {} && Past(EMPTY_WORLD, id) == [];
    assert Logged(EMPTY_WORLD.audit, id, success) == 0;
    hide Run, Lost, Owing, Outcome;
  }

  // ----- how many rows there can be -----

  /** In every run: the rows of an outcome number at most the exits from the queue to it, exactly if the late
      callbacks number at most the plain commits and the rows not written. */
  lemma AuditBound(events: seq<Event>, id: Id, success: bool)
    ensures var w := Run(EMPTY_WORLD, events); var past := Past(w, id);
            && (Logged(w.audit, id, success) <= Count(past, Exit(Outcome(success))) <==>
                  Count(past, Late(success)) <= Count(past, Plain(success)) + Unlogged(events, id, success))
  {
    AuditLedger(events, id, success);
    hide *;
  }

  /** In every run: the rows of both outcomes number at most the entries into the queue, exactly if the late
      callbacks number at most the plain commits, the rows not written, the exits back to APPROVED, the stray
      moves and the slot held now. */
  lemma AuditsPerEntry(events: seq<Event>, id: Id)
    ensures var w := Run(EMPTY_WORLD, events); var past := Past(w, id);
            && (Logged(w.audit, id, true) + Logged(w.audit, id, false) <= Count(past, Entry) <==>
                  Count(past, Late(true)) + Count(past, Late(false))
                  <= Count(past, Plain(true)) + Unlogged(events, id, true)
                     + Count(past, Plain(false)) + Unlogged(events, id, false)
                     + Count(past, Exit(Approved)) + StrayMoves(EMPTY_WORLD, events, id)
                     + if Current(past) == Queued then 1 else 0)
  {
    assert Outcome(true) == Downloaded && Outcome(false) == DownloadFailed;
    AuditLedger(events, id, true);
    AuditLedger(events, id, false);
    QueueLedger(events, id);
    hide Run, Count, Logged, Unlogged, StrayMoves, Current, Past;
  }

  /** In every run the rows number at most the exits and the late callbacks, and all together at most the
      entries and the late callbacks. */
  lemma AuditsPerQueueing(events: seq<Event>, id: Id)
    ensures var w := Run(EMPTY_WORLD, events); var past := Past(w, id);
            && Logged(w.audit, id, true) <= Count(past, Exit(Downloaded)) + Count(past, Late(true))
            && Logged(w.audit, id, false) <= Count(past, Exit(DownloadFailed)) + Count(past, Late(false))
            && Logged(w.audit, id, true) + Logged(w.audit, id, false)
            <= Count(past, Entry) + Count(past, Late(true)) + Count(past, Late(false))
  {
    assert Outcome(true) == Downloaded && Outcome(false) == DownloadFailed;
    AuditLedger(events, id, true);
    AuditLedger(events, id, false);
    QueueLedger(events, id);
    hide Run, Count, Logged, Unlogged, StrayMoves, Current, Past;
  }

  /** A callback's commit that finds the release no longer queued. */
  predicate IsLate(w: World, e: Event, id: Id, success: bool) {
    Completes(w, e, id, success) && w.rows[id].state != Queued
  }

  lemma LateCommit(w: World, e: Event, id: Id, success: bool)
    ensures var c := CommitOf(w, e, id);
            IsLate(w, e, id, success) <==> c.Some? && Counts(Late(success), c.value)
  {
    hide CanQueue, OverrideAccepted;
  }

  lemma {:induction false} RunLate(w: World, events: seq<Event>, id: Id, success: bool)
    ensures Count(Past(Run(w, events), id), Late(success)) >= Count(Past(w, id), Late(success))
    ensures Count(Past(Run(w, events), id), Late(success)) == Count(Past(w, id), Late(success))
       <==> Throughout(w, events, (v, e) => !IsLate(v, e, id, success))
    decreases |events|
  {
    if events != [] {
      LateCommit(w, events[0], id, success);
      StepCount(w, events[0], id, Late(success));
      hide Step, Count, CommitOf, Counts, IsLate;
      RunLate(Step(w, events[0]), events[1..], id, success);
    }
  }

  /** No callback of the release, with either outcome, commits late along the run. */
  ghost predicate NeverLate(events: seq<Event>, id: Id) {
    forall k :: 0 <= k < |events| ==>
      && !IsLate(Run(EMPTY_WORLD, events[..k]), events[k], id, true)
      && !IsLate(Run(EMPTY_WORLD, events[..k]), events[k], id, false)
  }

  lemma NeverLateCounts(events: seq<Event>, id: Id)
    ensures var past := Past(Run(EMPTY_WORLD, events), id);
            NeverLate(events, id) <==> Count(past, Late(true)) == 0 && Count(past, Late(false)) == 0
  {
    assert Past(EMPTY_WORLD, id) == [] && Count([], Late(true)) == 0 && Count([], Late(false)) == 0;
    RunLate(EMPTY_WORLD, events, id, true);
    RunLate(EMPTY_WORLD, events, id, false);
    hide IsLate, Step, Run, Count, Throughout;
    ThroughoutMeans(EMPTY_WORLD, events, (v, e) => !IsLate(v, e, id, true));
    ThroughoutMeans(EMPTY_WORLD, events, (v, e) => !IsLate(v, e, id, false));
  }

  /** Every completion was logged and its row kept, and no plain commit took the release from the queue to an
      outcome. */
  predicate CleanBooks(events: seq<Event>, id: Id) {
    var past := Past(Run(EMPTY_WORLD, events), id);
    && Unlogged(events, id, true) == 0 && Unlogged(events, id, false) == 0
    && Count(past, Plain(true)) == 0 && Count(past, Plain(false)) == 0
  }

  /** Then the bound holds for both outcomes exactly if no callback is late. */
  lemma CleanAudits(events: seq<Event>, id: Id)
    requires CleanBooks(events, id)
    ensures var w := Run(EMPTY_WORLD, events); var past := Past(w, id);
            && (NeverLate(events, id) <==>
                  && Logged(w.audit, id, true) <= Count(past, Exit(Downloaded))
                  && Logged(w.audit, id, false) <= Count(past, Exit(DownloadFailed)))
  {
    assert Outcome(true) == Downloaded && Outcome(false) == DownloadFailed;
    AuditBound(events, id, true);
    AuditBound(events, id, false);
    NeverLateCounts(events, id);
    hide Run, Count, Logged, Unlogged, NeverLate, Past;
  }

  /** In every run without late callbacks of the release they are logged at most once per queueing. */
  lemma OneAuditPerQueueing(events: seq<Event>, id: Id)
    requires NeverLate(events, id)
    ensures var w := Run(EMPTY_WORLD, events); var past := Past(w, id);
            && Logged(w.audit, id, true) <= Count(past, Exit(Downloaded))
            && Logged(w.audit, id, false) <= Count(past, Exit(DownloadFailed))
            && Logged(w.audit, id, true) + Logged(w.audit, id, false) <= Count(past, Entry)
  {
    NeverLateCounts(events, id);
    AuditsPerQueueing(events, id);
    hide *;
  }

  /** A commit from a fresh copy is never late. */
  lemma FreshIsNotLate(events: seq<Event>, id: Id)
    requires FreshRun(EMPTY_WORLD, events, id)
    ensures NeverLate(events, id)
  {
    forall v, e, b
      ensures FreshFor(v, e, id) ==> !IsLate(v, e, id, b)
    {
      FreshCallback(v, e, id, b);
    }
    hide FreshFor, IsLate, Step;
    ThroughoutImplies(EMPTY_WORLD, events, (v, e) => FreshFor(v, e, id), (v, e) => !IsLate(v, e, id, true));
    ThroughoutImplies(EMPTY_WORLD, events, (v, e) => FreshFor(v, e, id), (v, e) => !IsLate(v, e, id, false));
    ThroughoutMeans(EMPTY_WORLD, events, (v, e) => !IsLate(v, e, id, true));
    ThroughoutMeans(EMPTY_WORLD, events, (v, e) => !IsLate(v, e, id, false));
  }

  lemma FreshCallback(w: World, e: Event, id: Id, success: bool)
    ensures FreshFor(w, e, id) ==> !IsLate(w, e, id, success)
  {
  }
}
