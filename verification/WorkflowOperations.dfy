/** Sequences of whole operations: whatever they are, they end where some run ends, so what WorkflowRuns
    and WorkflowQueue say of runs holds after them. */
module WorkflowOperations {
  import opened Results
  import opened Workflow
  import opened WorkflowRuns
  import opened WorkflowQueue
  import opened WorkflowAudit
  import opened WorkflowService
  import opened WorkflowOutcomes
  import opened WorkflowHooks
  import opened WorkflowPolling
  import opened Scheduler
  import opened WorkflowRetention
  import Retention

  lemma SendReaches(w: World, s: Session, id: Id, job: Option<string>, user: string)
    requires Reachable(w)
    ensures Reachable(AfterStartSend(w, s, id))
    ensures Reachable(AfterFinishSend(w, s, job, user))
  {
    hide Step, CanMove;
    StepReaches(w, Load(s, id));
    StepReaches(Loaded(w, s, id), BeginSend(s, id));
    if job.Some? {
      StepReaches(w, StoreJob(s, job.value));
    }
    var stored := AfterStoreJob(w, s, job);
    StepReaches(stored, Enqueue(s, user));
    if s in w.tasks && w.tasks[s].Sending? {
      StepReaches(Step(stored, Enqueue(s, user)), Refresh(s, w.tasks[s].id));
    }
  }

  lemma {:induction false} PollReaches(w: World, s: Session, queued: seq<Id>, answers: seq<Answer>)
    requires Reachable(w) && |queued| == |answers|
    ensures Reachable(AfterPoll(w, s, queued, answers))
    decreases |queued|
  {
    hide AfterHook, Verdict, Reachable;
    if queued != [] {
      var v := Verdict(answers[0]);
      if v.Some? {
        OperationsReach(w, s, queued[0], Approved, v.value, POLLER, None);
      }
      PollReaches(if v.Some? then AfterHook(w, s, queued[0], v.value, POLLER) else w, s, queued[1..], answers[1..]);
    }
  }

  lemma {:induction false} LoadsReach(w: World, s: Session, ids: seq<Id>)
    requires Reachable(w)
    ensures Reachable(AfterLoads(w, s, ids))
    decreases |ids|
  {
    hide Step, Reachable;
    if ids != [] {
      StepReaches(w, Load(s, ids[0]));
      LoadsReach(Loaded(w, s, ids[0]), s, ids[1..]);
    }
  }

  lemma AnalysisReaches(w: World, s: Session, software: nat, item: Found)
    requires Reachable(w)
    ensures Reachable(AfterAnalysis(w, s, software, item))
  {
    hide Step, Reachable, NewRelease;
    var e := Insert(s, item.id, NewRelease(software, item));
    var stored := Step(Step(w, e), Refresh(s, item.id));
    StepReaches(w, e);
    StepReaches(Step(w, e), Refresh(s, item.id));
    StepReaches(stored, Assess(s, item.id, item.flag));
    var assessed := Step(stored, Assess(s, item.id, item.flag));
    StepReaches(assessed, Refresh(s, item.id));
    StepReaches(Step(assessed, Refresh(s, item.id)), Judge(s, item.id, item.developer));
  }

  lemma ResultReaches(w: World, s: Session, software: nat, item: Found)
    requires Reachable(w) && |Holding(w.rows, software, item.version)| <= 1
    ensures Reachable(AfterResult(w, s, software, item))
  {
    hide Step, Reachable, AfterAnalysis, AfterTransition, AfterApprove, Holding;
    AnalysisReaches(w, s, software, item);
    var analysed := AfterAnalysis(w, s, software, item);
    OperationsReach(analysed, s, item.id, Rejected, true, "rules:auto", None);
    OperationsReach(AfterStore(w, s, software, item), s, item.id, Approved, true, "scheduler", None);
    var existing := Holding(w.rows, software, item.version);
    if |existing| == 1 {
      UnfoldResult(w, s, software, item);
      var id :| id in existing;
      StepReaches(w, Load(s, id));
    }
  }

  lemma {:induction false} ResultsReach(w: World, s: Session, software: nat, found: seq<Found>)
    requires Reachable(w)
    ensures Reachable(AfterResults(w, s, software, found))
    decreases |found|
  {
    hide Reachable, AfterResult, Holding;
    if found != [] && |Holding(w.rows, software, found[0].version)| <= 1 {
      ResultReaches(w, s, software, found[0]);
      ResultsReach(AfterResult(w, s, software, found[0]), s, software, found[1..]);
    }
  }

  lemma {:induction false} RunReaches(w: World, events: seq<Event>)
    requires Reachable(w)
    ensures Reachable(Run(w, events))
    decreases |events|
  {
    hide Step, Reachable;
    if events != [] {
      StepReaches(w, events[0]);
      RunReaches(Step(w, events[0]), events[1..]);
    }
  }

  lemma RetentionReaches(w: World, created: Id -> int, software: set<nat>, p: Retention.Policy, now: int)
    requires Reachable(w)
    ensures Reachable(AfterRetention(w, created, software, p, now))
  {
    hide Reachable, Run, AfterRetention;
    var ids := Listed(DoomedIds(w, created, software, p, now));
    RetentionIsDeletes(w, created, software, p, now, ids);
    RunReaches(w, Deletes(ids));
  }

  // ----- any sequence -----

  datatype Operation =
    | Transition(s: Session, id: Id, target: State, user: string)
    | Approval(s: Session, id: Id, user: string)
    | BulkApproval(s: Session, ids: seq<Id>, user: string)
    | Overriding(s: Session, id: Id, user: string, reason: Option<string>)
    | Callback(s: Session, looked: seq<Id>, matched: Option<Id>, success: bool, user: string)
    | SendStart(s: Session, id: Id)
    | SendEnd(s: Session, job: Option<string>, user: string)
    | PollPass(s: Session, asked: seq<(Id, Answer)>)
    | SchedulerPass(s: Session, software: nat, found: seq<Found>)
    | Deletion(id: Id)
    | RetentionPass(created: Id -> int, entries: set<nat>, p: Retention.Policy, now: int)
    | AuditPruning(count: nat)
    | Close(s: Session, id: Id)

  function Asked(asked: seq<(Id, Answer)>): (queued: seq<Id>)
    ensures |queued| == |asked|
  {
    seq(|asked|, i requires 0 <= i < |asked| => asked[i].0)
  }

  function Answers(asked: seq<(Id, Answer)>): (answers: seq<Answer>)
    ensures |answers| == |asked|
  {
    seq(|asked|, i requires 0 <= i < |asked| => asked[i].1)
  }

  /** The world after one operation, as the service's methods leave it. */
  ghost function Perform(w: World, op: Operation): World {
    match op
    case Transition(s, id, target, user) => AfterTransition(w, s, id, target, user)
    case Approval(s, id, user) => AfterApprove(w, s, id, user)
    case BulkApproval(s, ids, user) => AfterBulkApprove(w, s, ids, user)
    case Overriding(s, id, user, reason) => AfterOverride(w, s, id, user, reason)
    case Callback(s, looked, matched, success, user) =>
      var found := AfterLoads(w, s, looked);
      if matched.Some? then AfterHook(found, s, matched.value, success, user) else found
    case SendStart(s, id) => AfterStartSend(w, s, id)
    case SendEnd(s, job, user) => AfterFinishSend(w, s, job, user)
    case PollPass(s, asked) => AfterPoll(w, s, Asked(asked), Answers(asked))
    case SchedulerPass(s, software, found) => AfterResults(w, s, software, found)
    case Deletion(id) => Step(w, Delete(id))
    case RetentionPass(created, entries, p, now) => AfterRetention(w, created, entries, p, now)
    case AuditPruning(count) => Step(w, PruneAudit(count))
    case Close(s, id) => Step(w, Forget(s, id))
  }

  ghost function PerformAll(w: World, ops: seq<Operation>): World
    decreases |ops|
  {
    if ops == [] then w else PerformAll(Perform(w, ops[0]), ops[1..])
  }

  lemma PerformReaches(w: World, op: Operation)
    requires Reachable(w)
    ensures Reachable(Perform(w, op))
  {
    hide Reachable, Step, AfterTransition, AfterApprove, AfterBulkApprove, AfterOverride, AfterLoads, AfterHook,
      AfterStartSend, AfterFinishSend, AfterPoll, AfterResults, AfterRetention;
    match op {
      case Transition(s, id, target, user) => OperationsReach(w, s, id, target, true, user, None);
      case Approval(s, id, user) => OperationsReach(w, s, id, Approved, true, user, None);
      case BulkApproval(s, ids, user) => BulkApproveReaches(w, s, ids, user);
      case Overriding(s, id, user, reason) => OperationsReach(w, s, id, Approved, true, user, reason);
      case Callback(s, looked, matched, success, user) =>
        LoadsReach(w, s, looked);
        if matched.Some? {
          OperationsReach(AfterLoads(w, s, looked), s, matched.value, Approved, success, user, None);
        }
      case SendStart(s, id) => SendReaches(w, s, id, None, "");
      case SendEnd(s, job, user) => SendReaches(w, s, 0, job, user);
      case PollPass(s, asked) => PollReaches(w, s, Asked(asked), Answers(asked));
      case SchedulerPass(s, software, found) => ResultsReach(w, s, software, found);
      case Deletion(id) => StepReaches(w, Delete(id));
      case RetentionPass(created, entries, p, now) => RetentionReaches(w, created, entries, p, now);
      case AuditPruning(count) => StepReaches(w, PruneAudit(count));
      case Close(s, id) => StepReaches(w, Forget(s, id));
    }
  }

  /** Any sequence of operations ends where some run ends. */
  lemma {:induction false} SequenceReaches(w: World, ops: seq<Operation>)
    requires Reachable(w)
    ensures Reachable(PerformAll(w, ops))
    decreases |ops|
  {
    hide Reachable, Perform;
    if ops != [] {
      PerformReaches(w, ops[0]);
      SequenceReaches(Perform(w, ops[0]), ops[1..]);
    }
  }

  /** After any sequence of operations from an empty database every stored release is vetted, and every
      override of it has its record. */
  lemma OperationsAreSafe(ops: seq<Operation>, id: Id)
    requires id in PerformAll(EMPTY_WORLD, ops).rows
    ensures var w := PerformAll(EMPTY_WORLD, ops);
            && id in w.past && Vetted(w.rows[id], w.past[id])
            && |OverridesOf(w, id)| == Count(w.past[id], Overridden)
  {
    hide Vetted, PerformAll, Step, OverridesOf, Count;
    assert Reachable(EMPTY_WORLD) by {
      assert EMPTY_WORLD == Run(EMPTY_WORLD, []);
    }
    SequenceReaches(EMPTY_WORLD, ops);
    var events :| PerformAll(EMPTY_WORLD, ops) == Run(EMPTY_WORLD, events);
    EveryReleaseIsVetted(events, id);
    OverridesAreRecorded(events, id);
  }
}
