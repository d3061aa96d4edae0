/** The scheduler's automatic approval when other actors act in between: storing and analysing a
    release takes several commits, and the network requests of the analysis leave time for others. */
module SchedulerRuns {
  import opened Results
  import opened Workflow
  import opened WorkflowRuns
  import opened WorkflowSteps

  /** The states from which the table leads to APPROVED. */
  const APPROVABLE := {UnderReview, Queued, DownloadFailed}

  /** In any world: an approval is accepted exactly if the row is stored and the session's copy is in
      one of these states. */
  lemma ApprovalAccepted(w: World, s: Session, id: Id)
    ensures CanMove(w, s, id, Approved)
       <==> id in w.rows && id in w.past && (s, id) in w.held && w.held[(s, id)].state in APPROVABLE
  {
    assert forall state :: Approved in Allowed(state) <==> state in APPROVABLE;
  }

  /** The events are all of other sessions, or of none. */
  predicate Foreign(events: seq<Event>, s: Session) {
    forall i :: 0 <= i < |events| ==> events[i].Delete? || events[i].PruneAudit? || events[i].s != s
  }

  /** The session's copy is the same, the release is known, and it was not stored anew. */
  predicate CopyKept(w: World, v: World, s: Session, id: Id)
    requires (s, id) in w.held
  {
    && (s, id) in v.held && v.held[(s, id)].state == w.held[(s, id)].state
    && id in v.past
    && (id in v.rows ==> id in w.rows)
  }

  lemma ForeignHeld(w: World, e: Event, s: Session, id: Id)
    requires (s, id) in w.held && (e.Delete? || e.PruneAudit? || e.s != s)
    ensures (s, id) in Step(w, e).held && Step(w, e).held[(s, id)] == w.held[(s, id)]
  {
    hide Written, OverridesOf, Outcome, Allowed;
  }

  lemma ForeignStep(w: World, e: Event, s: Session, id: Id)
    requires (s, id) in w.held && id in w.past && Foreign([e], s)
    ensures CopyKept(w, Step(w, e), s, id)
  {
    assert [e][0] == e;
    ForeignHeld(w, e, s, id);
    StepFollows(w, e, id);
    hide Step, CommitOf;
  }

  lemma {:induction false} ForeignRun(w: World, events: seq<Event>, s: Session, id: Id)
    requires (s, id) in w.held && id in w.past && Foreign(events, s)
    ensures CopyKept(w, Run(w, events), s, id)
    decreases |events|
  {
    if events != [] {
      assert Foreign([events[0]], s) && Foreign(events[1..], s) by {
        assert forall i :: 0 <= i < |events[1..]| ==> events[1..][i] == events[i + 1];
      }
      ForeignStep(w, events[0], s, id);
      hide Step, Foreign;
      ForeignRun(Step(w, events[0]), events[1..], s, id);
    }
  }

  /** The analysis from its last refresh on: then the trust level is stored and the rules are applied, with
      other sessions' events after each. */
  function Analysed(w: World, s: Session, id: Id, a: seq<Event>, developer: bool, b: seq<Event>): World {
    Run(Step(Run(Step(w, Refresh(s, id)), a), Judge(s, id, developer)), b)
  }

  /** The rejection is committed, the copy refreshed, and the reasons are committed; others act after each. */
  function RejectedWorld(w: World, s: Session, id: Id, c: seq<Event>, d: seq<Event>): World {
    Run(Step(Run(Step(w, Move(s, id, Rejected, "rules:auto")), c), Refresh(s, id)), d)
  }

  /** What others do in a pass: after the last refresh of the analysis, after the trust level, after
      the commit of a rejection, after the refresh that follows it, and before the approval. */
  datatype Meanwhile = Meanwhile(a: seq<Event>, b: seq<Event>, c: seq<Event>, d: seq<Event>, e: seq<Event>)

  predicate ForeignAll(m: Meanwhile, s: Session) {
    Foreign(m.a, s) && Foreign(m.b, s) && Foreign(m.c, s) && Foreign(m.d, s) && Foreign(m.e, s)
  }

  /** A rule rejects the release and the table lets the rejection through. */
  predicate RejectionCommits(w: World, s: Session, id: Id, m: Meanwhile, developer: bool, rejected: bool) {
    rejected && CanMove(Analysed(w, s, id, m.a, developer, m.b), s, id, Rejected)
  }

  /** The world in which the session refreshes its copy for the last time before the approval. */
  function LastRead(w: World, s: Session, id: Id, m: Meanwhile, developer: bool, rejected: bool): World {
    if RejectionCommits(w, s, id, m, developer, rejected)
    then RejectedWorld(Analysed(w, s, id, m.a, developer, m.b), s, id, m.c, m.d)
    else w
  }

  /** The world in which the scheduler's session decides on the approval; `w` is the one in which
      the analysis refreshes its copy. */
  function AtApproval(w: World, s: Session, id: Id, m: Meanwhile, developer: bool, rejected: bool): World {
    if RejectionCommits(w, s, id, m, developer, rejected)
    then Run(Step(LastRead(w, s, id, m, developer, rejected), Refresh(s, id)), m.e)
    else Run(Analysed(w, s, id, m.a, developer, m.b), m.e)
  }

  lemma OwnSteps(w: World, s: Session, id: Id, developer: bool)
    requires (s, id) in w.held && id in w.past
    ensures CopyKept(w, Step(w, Judge(s, id, developer)), s, id)
    ensures var v := Step(w, Refresh(s, id));
            && v.rows == w.rows && id in v.past && (s, id) in v.held
            && (id in w.rows ==> v.held[(s, id)] == w.rows[id])
    ensures var v := Step(w, Move(s, id, Rejected, "rules:auto"));
            v.rows.Keys == w.rows.Keys && id in v.past && (s, id) in v.held
  {
  }

  /** What a copy shows that was refreshed and then left alone. */
  lemma CopyAtRefresh(w: World, s: Session, id: Id, events: seq<Event>)
    requires (s, id) in w.held && id in w.past && Foreign(events, s)
    ensures var v := Run(Step(w, Refresh(s, id)), events);
            && (s, id) in v.held && id in v.past
            && (id in v.rows ==> id in w.rows && v.held[(s, id)].state == w.rows[id].state)
  {
    OwnSteps(w, s, id, false);
    hide Step, Run, Foreign;
    ForeignRun(Step(w, Refresh(s, id)), events, s, id);
  }

  lemma AnalysedCopy(w: World, s: Session, id: Id, a: seq<Event>, developer: bool, b: seq<Event>)
    requires (s, id) in w.held && id in w.past && Foreign(a, s) && Foreign(b, s)
    ensures var v := Analysed(w, s, id, a, developer, b);
            && (s, id) in v.held && id in v.past
            && (id in v.rows ==> id in w.rows && v.held[(s, id)].state == w.rows[id].state)
  {
    var before := Run(Step(w, Refresh(s, id)), a);
    hide Step, Run, Foreign;
    CopyAtRefresh(w, s, id, a);
    OwnSteps(before, s, id, developer);
    ForeignRun(Step(before, Judge(s, id, developer)), b, s, id);
  }

  lemma RejectedCopy(w: World, s: Session, id: Id, c: seq<Event>, d: seq<Event>)
    requires (s, id) in w.held && id in w.past && Foreign(c, s) && Foreign(d, s)
    ensures var v := RejectedWorld(w, s, id, c, d); (s, id) in v.held && id in v.past
  {
    var moved := Step(w, Move(s, id, Rejected, "rules:auto"));
    OwnSteps(w, s, id, false);
    hide Step, Run, Foreign;
    ForeignRun(moved, c, s, id);
    CopyAtRefresh(Run(moved, c), s, id, d);
  }

  /** Exactly when the scheduler's approval is accepted, whatever others do in between: the release is still
      stored, and when the session last refreshed its copy it was in a state that leads to APPROVED. That
      refresh is the one after a rejection if a rejection is committed, else the one of the analysis. */
  lemma AutoApproval(w: World, s: Session, id: Id, m: Meanwhile, developer: bool, rejected: bool)
    requires (s, id) in w.held && id in w.past && ForeignAll(m, s)
    ensures var v, last := AtApproval(w, s, id, m, developer, rejected), LastRead(w, s, id, m, developer, rejected);
            && (CanMove(v, s, id, Approved) <==>
                  id in last.rows && id in v.rows && last.rows[id].state in APPROVABLE)
  {
    var analysed := Analysed(w, s, id, m.a, developer, m.b);
    var last, v := LastRead(w, s, id, m, developer, rejected), AtApproval(w, s, id, m, developer, rejected);
    AnalysedCopy(w, s, id, m.a, developer, m.b);
    hide Step, Run, Foreign, Analysed, RejectedWorld;
    if RejectionCommits(w, s, id, m, developer, rejected) {
      RejectedCopy(analysed, s, id, m.c, m.d);
      CopyAtRefresh(last, s, id, m.e);
    } else {
      ForeignRun(analysed, m.e, s, id);
    }
    ApprovalAccepted(v, s, id);
  }

  /** When a rejection is committed: the release is stored, and from its state at the refresh of the analysis
      the table leads to REJECTED. Without one, a rule that rejects leaves two states to approve from. */
  lemma RejectionDecides(w: World, s: Session, id: Id, m: Meanwhile, developer: bool, rejected: bool)
    requires (s, id) in w.held && id in w.past && ForeignAll(m, s)
    ensures RejectionCommits(w, s, id, m, developer, rejected) <==>
              && rejected && id in w.rows && id in Analysed(w, s, id, m.a, developer, m.b).rows
              && Rejected in Allowed(w.rows[id].state)
    ensures !RejectionCommits(w, s, id, m, developer, rejected) ==>
              var v := AtApproval(w, s, id, m, developer, rejected);
              && (CanMove(v, s, id, Approved) <==>
                    && id in w.rows && id in v.rows
                    && w.rows[id].state in (if rejected then {Queued, DownloadFailed} else APPROVABLE))
  {
    var analysed := Analysed(w, s, id, m.a, developer, m.b);
    AnalysedCopy(w, s, id, m.a, developer, m.b);
    AutoApproval(w, s, id, m, developer, rejected);
    ForeignRun(analysed, m.e, s, id);
    hide Step, Run, Foreign, Analysed;
    assert forall x :: x in APPROVABLE ==> (Rejected in Allowed(x) <==> x == UnderReview);
  }

  // ----- a run in which it succeeds -----

  const FOUND := Release(1, "app 3.0", "3.0", Discovered, Unverified, NoFlag, None, "")

  /** Session 0 stores a release; while it is analysed an admin stages it and puts it under review. */
  const REVIEW_MEANWHILE: seq<Event> :=
    [Insert(0, 7, FOUND), Load(1, 7), Move(1, 7, Staged, "admin"), Move(1, 7, UnderReview, "admin")]

  const APPROVE_AFTERWARDS: seq<Event> :=
    [Assess(0, 7, NoFlag), Refresh(0, 7), Judge(0, 7, false), Approve(0, 7, "scheduler")]

  lemma RunFour(w: World, events: seq<Event>)
    requires |events| == 4
    ensures Run(w, events) == Step(Step(Step(Step(w, events[0]), events[1]), events[2]), events[3])
  {
    hide Step;
    var two := events[1..][1..];
    var x := Step(Step(w, events[0]), events[1]);
    assert two == [events[2], events[3]] && two[1..] == [events[3]] && two[1..][1..] == [];
    assert Run(w, events) == Run(x, two);
    assert Run(x, two) == Run(Step(Step(x, events[2]), events[3]), []);
  }

  predicate InReview(w: World) {
    7 in w.rows && w.rows[7].state == UnderReview && w.rows[7].changedBy == "admin" && 7 in w.past && (0, 7) in w.held
  }

  /** The admin's three steps, with a copy of its own. */
  lemma StageAndReview(w: World)
    requires 7 in w.rows && 7 in w.past && (0, 7) in w.held && (1, 7) !in w.held
    requires w.rows[7].state in {Discovered, Rejected} && w.rows[7].changedBy != "admin"
    ensures InReview(Step(Step(Step(w, Load(1, 7)), Move(1, 7, Staged, "admin")), Move(1, 7, UnderReview, "admin")))
  {
    var staged := Step(Step(w, Load(1, 7)), Move(1, 7, Staged, "admin"));
    assert staged.rows[7] == staged.held[(1, 7)] && staged.rows[7].state == Staged;
    assert staged.rows[7].changedBy == "admin";
  }

  lemma ReviewMeanwhile()
    ensures InReview(Run(EMPTY_WORLD, REVIEW_MEANWHILE))
  {
    RunFour(EMPTY_WORLD, REVIEW_MEANWHILE);
    var w := Step(EMPTY_WORLD, REVIEW_MEANWHILE[0]);
    assert w.rows == map[7 := FOUND] && w.held == map[(0, 7) := FOUND] && 7 in w.past;
    hide Run, Step, InReview;
    StageAndReview(w);
  }

  lemma AssessRefresh(w: World)
    requires InReview(w)
    ensures var v := Step(Step(w, Assess(0, 7, NoFlag)), Refresh(0, 7));
            InReview(v) && v.held[(0, 7)] == v.rows[7]
  {
    assert InReview(Step(w, Assess(0, 7, NoFlag)));
  }

  lemma JudgeApprove(w: World)
    requires InReview(w) && w.held[(0, 7)] == w.rows[7]
    ensures var v := Step(Step(w, Judge(0, 7, false)), Approve(0, 7, "scheduler"));
            7 in v.rows && v.rows[7].state == Approved && v.rows[7].changedBy == "scheduler"
  {
    var j := Step(w, Judge(0, 7, false));
    assert InReview(j) && j.held[(0, 7)].state == UnderReview && j.held[(0, 7)].changedBy == "admin";
  }

  lemma ApprovedAfterwards(w: World)
    requires InReview(w)
    ensures var v := Run(w, APPROVE_AFTERWARDS);
            7 in v.rows && v.rows[7].state == Approved && v.rows[7].changedBy == "scheduler"
  {
    hide Step, Run, InReview;
    RunFour(w, APPROVE_AFTERWARDS);
    AssessRefresh(w);
    JudgeApprove(Step(Step(w, Assess(0, 7, NoFlag)), Refresh(0, 7)));
  }

  /** So the scheduler can approve a release on its own. */
  lemma SchedulerApproves()
    ensures var w := Run(EMPTY_WORLD, REVIEW_MEANWHILE + APPROVE_AFTERWARDS);
            7 in w.rows && w.rows[7].state == Approved && w.rows[7].changedBy == "scheduler"
  {
    ReviewMeanwhile();
    RunAppend(EMPTY_WORLD, REVIEW_MEANWHILE, APPROVE_AFTERWARDS);
    ApprovedAfterwards(Run(EMPTY_WORLD, REVIEW_MEANWHILE));
  }

  // ----- a run in which it succeeds although the rules rejected the release -----

  /** Session 0 stores the release, nobody acts while it is analysed, and a rule rejects it. */
  const REJECT_FOUND: seq<Event> :=
    [Insert(0, 7, FOUND), Refresh(0, 7), Judge(0, 7, false), Move(0, 7, Rejected, "rules:auto")]

  /** An admin stages the release and puts it under review before session 0 refreshes its copy. */
  const REVIEW_REJECTED: seq<Event> :=
    [Load(1, 7), Move(1, 7, Staged, "admin"), Move(1, 7, UnderReview, "admin"), Refresh(0, 7)]

  lemma RejectFound()
    ensures var w := Run(EMPTY_WORLD, REJECT_FOUND);
            && 7 in w.rows && 7 in w.past && (0, 7) in w.held && (1, 7) !in w.held
            && w.rows[7] == FOUND.(state := Rejected, changedBy := "rules:auto")
  {
    RunFour(EMPTY_WORLD, REJECT_FOUND);
    var w := Step(Step(EMPTY_WORLD, REJECT_FOUND[0]), REJECT_FOUND[1]);
    assert w.rows == map[7 := FOUND] && w.held == map[(0, 7) := FOUND] && 7 in w.past;
  }

  lemma RefreshApprove(w: World)
    requires InReview(w)
    ensures var v := Step(Step(w, Refresh(0, 7)), Approve(0, 7, "scheduler"));
            7 in v.rows && v.rows[7].state == Approved && v.rows[7].changedBy == "scheduler"
  {
    var x := Step(w, Refresh(0, 7));
    assert InReview(x) && x.held[(0, 7)] == x.rows[7];
  }

  /** So a release can be approved by the scheduler in the very pass in which its rules rejected it. */
  lemma RejectedIsApproved()
    ensures var w := Step(Run(EMPTY_WORLD, REJECT_FOUND + REVIEW_REJECTED), Approve(0, 7, "scheduler"));
            7 in w.rows && w.rows[7].state == Approved && w.rows[7].changedBy == "scheduler"
  {
    RunAppend(EMPTY_WORLD, REJECT_FOUND, REVIEW_REJECTED);
    var w := Run(EMPTY_WORLD, REJECT_FOUND);
    hide Run, Step, InReview;
    RejectFound();
    RunFour(w, REVIEW_REJECTED);
    StageAndReview(w);
    RefreshApprove(Step(Step(Step(w, REVIEW_REJECTED[0]), REVIEW_REJECTED[1]), REVIEW_REJECTED[2]));
  }
}
