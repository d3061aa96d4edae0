/** One pass of the poller that asks the torrent client about the queued releases. */
module WorkflowPolling {
  import opened Collections
  import opened Results
  import opened Text
  import opened Workflow
  import opened WorkflowService
  import opened WorkflowOutcomes

  const POLLER := "poller:qbittorrent"

  const COMPLETED_STATES := {"uploading", "stalledup", "pausedup", "seeding", "forcedup", "queuedup"}
  const FAILED_STATES := {"error", "missingfiles"}

  /** What the client says of a torrent: the request failed, it has no such torrent, or its state. */
  datatype Answer = Unreachable | Gone | Reported(state: string)

  /** Whether a download is over, and if so whether it succeeded; a torrent that is gone did. */
  function Verdict(a: Answer): Option<bool> {
    match a
    case Unreachable => None
    case Gone => Some(true)
    case Reported(state) =>
      if Lower(state) in COMPLETED_STATES then Some(true)
      else if Lower(state) in FAILED_STATES then Some(false)
      else None
  }

  /** What the client calls a finished download and a broken one, in any case of letters. */
  predicate SaysFinished(state: string) {
    || SameText(state, "uploading") || SameText(state, "stalledup") || SameText(state, "pausedup")
    || SameText(state, "seeding") || SameText(state, "forcedUP") || SameText(state, "queuedUP")
  }

  predicate SaysBroken(state: string) {
    SameText(state, "error") || SameText(state, "missingFiles")
  }

  /** The answer says that the download is over, with that success. */
  predicate IsOver(a: Answer, success: bool) {
    match a
    case Unreachable => false
    case Gone => success
    case Reported(state) => if success then SaysFinished(state) else SaysBroken(state)
  }

  lemma PlainStates()
    ensures forall w :: w in COMPLETED_STATES + FAILED_STATES ==> Lower(w) == w
    ensures Lower("forcedUP") == "forcedup" && Lower("queuedUP") == "queuedup"
    ensures Lower("missingFiles") == "missingfiles"
    ensures COMPLETED_STATES !! FAILED_STATES
  {
    assert forall w :: w in FAILED_STATES ==> w[0] == 'e' || w[0] == 'm';
  }

  lemma StateMeans(state: string)
    ensures Lower(state) in COMPLETED_STATES <==> SaysFinished(state)
    ensures Lower(state) in FAILED_STATES <==> SaysBroken(state)
  {
    PlainStates();
    hide Lower, SameText;
    forall w
      ensures SameText(state, w) <==> Lower(state) == Lower(w)
    {
      CaseMeans(state, w);
    }
  }

  lemma VerdictMeans(a: Answer, success: bool)
    ensures Verdict(a) == Some(success) <==> IsOver(a, success)
  {
    if a.Reported? {
      StateMeans(a.state);
      PlainStates();
    }
    hide Lower, SaysFinished, SaysBroken;
  }

  function AfterPoll(w: World, s: Session, queued: seq<Id>, answers: seq<Answer>): World
    requires |queued| == |answers|
    decreases |queued|
  {
    if queued == [] then w
    else
      var v := Verdict(answers[0]);
      AfterPoll(if v.Some? then AfterHook(w, s, queued[0], v.value, POLLER) else w, s, queued[1..], answers[1..])
  }

  lemma PollStep(w: World, s: Session, queued: seq<Id>, answers: seq<Answer>, i: nat)
    requires |queued| == |answers| && i < |queued|
    ensures AfterPoll(w, s, queued[i..], answers[i..])
         == (var v := Verdict(answers[i]);
             AfterPoll(if v.Some? then AfterHook(w, s, queued[i], v.value, POLLER) else w,
                       s, queued[i + 1..], answers[i + 1..]))
  {
    hide AfterHook, Verdict;
    assert queued[i..][1..] == queued[i + 1..] && answers[i..][1..] == answers[i + 1..];
  }

  lemma PollNothing(w: World, s: Session)
    ensures AfterPoll(w, s, [], []) == w
  {
  }

  /** Finishes one release, unless the transition is refused. */
  method FinishPolled(service: ReleaseService, s: Session, id: Id, success: bool) returns (done: bool)
    requires service.Valid()
    modifies service
    ensures service.Valid() && service.W() == AfterHook(old(service.W()), s, id, success, POLLER)
    ensures done <==> CanMove(Loaded(old(service.W()), s, id), s, id, Outcome(success))
  {
    var found := service.GetReleaseById(s, id);
    if found.None? || Outcome(success) !in Allowed(found.value.state) {
      return false;
    }
    service.CompleteDownload(s, id, success, POLLER);
    done := true;
  }

  method PollQueued(service: ReleaseService, s: Session, queued: seq<Id>, answers: seq<Answer>)
    requires service.Valid() && |queued| == |answers|
    modifies service
    ensures service.Valid() && service.W() == AfterPoll(old(service.W()), s, queued, answers)
  {
    hide AfterPoll, AfterHook, Verdict;
    assert queued[0..] == queued && answers[0..] == answers;
    for i := 0 to |queued|
      invariant service.Valid()
      invariant AfterPoll(service.W(), s, queued[i..], answers[i..]) == AfterPoll(old(service.W()), s, queued, answers)
    {
      PollStep(service.W(), s, queued, answers, i);
      var verdict := Verdict(answers[i]);
      if verdict.None? {
        continue;
      }
      var _ := FinishPolled(service, s, queued[i], verdict.value);
    }
    assert queued[|queued|..] == [] && answers[|queued|..] == [];
    PollNothing(service.W(), s);
  }

  // ----- what a pass does -----

  predicate Finishes(w: World, id: Id, a: Answer) {
    id in w.rows && w.rows[id].state == Queued && Verdict(a).Some?
  }

  function FinishedRow(r: Release, success: bool): Release {
    r.(state := Outcome(success), changedBy := POLLER)
  }

  /** One audit row for every release that the pass finishes, in order. */
  function PollAudit(w: World, queued: seq<Id>, answers: seq<Answer>): seq<Audit>
    requires |queued| == |answers|
    decreases |queued|
  {
    if queued == [] then []
    else
      (if Finishes(w, queued[0], answers[0]) then [Audit(Verdict(answers[0]).value, queued[0], POLLER)] else [])
      + PollAudit(w, queued[1..], answers[1..])
  }

  function Completed(w: World, s: Session, id: Id, success: bool, user: string): World {
    Step(Step(w, Complete(s, id, success, user)), Refresh(s, id))
  }

  lemma CompleteEffect(w: World, s: Session, id: Id, success: bool, user: string)
    requires UpToDate(w, s) && CanMove(w, s, id, Outcome(success))
    ensures var c := Completed(w, s, id, success, user);
            && UpToDate(c, s)
            && c.rows == w.rows[id := w.rows[id].(state := Outcome(success), changedBy := user)]
            && c.audit == w.audit
            && s in c.tasks && c.tasks[s] == OweAudit(id, success, user)
  {
  }

  lemma LogEffect(w: World, s: Session, id: Id, success: bool, user: string)
    requires UpToDate(w, s) && s in w.tasks && w.tasks[s] == OweAudit(id, success, user)
    ensures var w' := Step(w, LogCompletion(s));
            UpToDate(w', s) && w'.rows == w.rows && w'.audit == w.audit + [Audit(success, id, user)]
  {
  }

  lemma HookEffect(w: World, s: Session, id: Id, success: bool, user: string)
    requires UpToDate(w, s)
    ensures var w' := AfterHook(w, s, id, success, user);
            && UpToDate(w', s)
            && (if id in w.rows && w.rows[id].state == Queued then
                  && w'.rows == w.rows[id := w.rows[id].(state := Outcome(success), changedBy := user)]
                  && w'.audit == w.audit + [Audit(success, id, user)]
                else w'.rows == w.rows && w'.audit == w.audit)
  {
    hide Step, UpToDate, CanMove, Loaded;
    var l := Loaded(w, s, id);
    LoadEffect(w, s, id, Outcome(success));
    if CanMove(l, s, id, Outcome(success)) {
      CompleteEffect(l, s, id, success, user);
      LogEffect(Completed(l, s, id, success, user), s, id, success, user);
    }
  }

  lemma {:induction false} SameAudit(w: World, v: World, queued: seq<Id>, answers: seq<Answer>)
    requires |queued| == |answers|
    requires forall i :: 0 <= i < |queued| ==>
               (Finishes(w, queued[i], answers[i]) <==> Finishes(v, queued[i], answers[i]))
    ensures PollAudit(w, queued, answers) == PollAudit(v, queued, answers)
    decreases |queued|
  {
    hide Finishes, Verdict;
    if queued != [] {
      SameAudit(w, v, queued[1..], answers[1..]);
    }
  }

  /** What becomes of a stored release under the answers, taken one after the other. */
  function PolledRow(r: Release, id: Id, queued: seq<Id>, answers: seq<Answer>): Release
    requires |queued| == |answers|
    decreases |queued|
  {
    if queued == [] then r
    else
      PolledRow(if queued[0] == id && r.state == Queued && Verdict(answers[0]).Some?
                then FinishedRow(r, Verdict(answers[0]).value) else r,
                id, queued[1..], answers[1..])
  }

  lemma {:induction false} RowAfterPoll(w: World, s: Session, queued: seq<Id>, answers: seq<Answer>, id: Id)
    requires UpToDate(w, s) && |queued| == |answers|
    ensures var w' := AfterPoll(w, s, queued, answers);
            && (id in w'.rows <==> id in w.rows)
            && (id in w.rows ==> w'.rows[id] == PolledRow(w.rows[id], id, queued, answers))
    decreases |queued|
  {
    hide AfterHook, Verdict, UpToDate;
    if queued != [] {
      var v := Verdict(answers[0]);
      if v.Some? {
        HookEffect(w, s, queued[0], v.value, POLLER);
      }
      var next := if v.Some? then AfterHook(w, s, queued[0], v.value, POLLER) else w;
      RowAfterPoll(next, s, queued[1..], answers[1..], id);
    }
  }

  lemma {:induction false} PolledOnce(r: Release, id: Id, queued: seq<Id>, answers: seq<Answer>)
    requires |queued| == |answers| && NoRepeats(queued)
    ensures id !in queued ==> PolledRow(r, id, queued, answers) == r
    ensures forall i :: 0 <= i < |queued| && queued[i] == id ==>
              PolledRow(r, id, queued, answers)
              == if r.state == Queued && Verdict(answers[i]).Some? then FinishedRow(r, Verdict(answers[i]).value) else r
    decreases |queued|
  {
    hide Verdict;
    if queued != [] {
      var rest, later := queued[1..], answers[1..];
      assert forall i :: 0 < i < |queued| ==>
               queued[i] == rest[i - 1] && answers[i] == later[i - 1] && queued[i] != queued[0];
      if queued[0] == id {
        assert id !in rest;
        var first := if r.state == Queued && Verdict(answers[0]).Some?
                     then FinishedRow(r, Verdict(answers[0]).value) else r;
        PolledOnce(first, id, rest, later);
        assert PolledRow(r, id, queued, answers) == first;
        assert forall i :: 0 <= i < |queued| && queued[i] == id ==> i == 0;
      } else {
        PolledOnce(r, id, rest, later);
      }
    }
  }

  lemma {:induction false} AuditAfterPoll(w: World, s: Session, queued: seq<Id>, answers: seq<Answer>)
    requires UpToDate(w, s) && |queued| == |answers| && NoRepeats(queued)
    ensures AfterPoll(w, s, queued, answers).audit == w.audit + PollAudit(w, queued, answers)
    decreases |queued|
  {
    hide AfterHook, Verdict, UpToDate;
    if queued != [] {
      var id, rest, later := queued[0], queued[1..], answers[1..];
      var v := Verdict(answers[0]);
      var next := if v.Some? then AfterHook(w, s, id, v.value, POLLER) else w;
      if v.Some? {
        HookEffect(w, s, id, v.value, POLLER);
      }
      assert forall i :: 0 <= i < |rest| ==> rest[i] == queued[i + 1] && rest[i] != id;
      AuditAfterPoll(next, s, rest, later);
      SameAudit(w, next, rest, later);
    }
  }

  /** A queued release whose download is over gets that outcome and the poller's name; others stay. */
  predicate IsPolled(before: Release, after: Release, a: Answer) {
    && (before.state == Queued && IsOver(a, true) ==>
          after == before.(state := Downloaded, changedBy := "poller:qbittorrent"))
    && (before.state == Queued && IsOver(a, false) ==>
          after == before.(state := DownloadFailed, changedBy := "poller:qbittorrent"))
    && (before.state != Queued || !(IsOver(a, true) || IsOver(a, false)) ==> after == before)
  }

  lemma PolledMeans(w: World, id: Id, a: Answer)
    requires id in w.rows
    ensures IsPolled(w.rows[id],
                     if Finishes(w, id, a) then FinishedRow(w.rows[id], Verdict(a).value) else w.rows[id],
                     a)
  {
    VerdictMeans(a, true);
    VerdictMeans(a, false);
    hide IsOver, Verdict;
  }

  /** From up-to-date copies a pass finishes exactly the releases that are queued and whose download
      is over, each with the outcome of its own torrent; it logs each once and touches no other. */
  lemma PollOutcome(w: World, s: Session, queued: seq<Id>, answers: seq<Answer>)
    requires UpToDate(w, s) && |queued| == |answers| && NoRepeats(queued)
    ensures var w' := AfterPoll(w, s, queued, answers);
            && w'.rows.Keys == w.rows.Keys
            && (forall i :: 0 <= i < |queued| && queued[i] in w.rows ==>
                  IsPolled(w.rows[queued[i]], w'.rows[queued[i]], answers[i]))
            && (forall id :: id in w.rows && id !in queued ==> w'.rows[id] == w.rows[id])
            && w'.audit == w.audit + PollAudit(w, queued, answers)
  {
    forall i | 0 <= i < |queued| && queued[i] in w.rows
      ensures IsPolled(w.rows[queued[i]],
                       if Finishes(w, queued[i], answers[i])
                       then FinishedRow(w.rows[queued[i]], Verdict(answers[i]).value)
                       else w.rows[queued[i]],
                       answers[i])
    {
      PolledMeans(w, queued[i], answers[i]);
    }
    hide AfterPoll, PolledRow, PollAudit, UpToDate, Verdict, NoRepeats, IsPolled;
    AuditAfterPoll(w, s, queued, answers);
    forall id
      ensures id in AfterPoll(w, s, queued, answers).rows <==> id in w.rows
      ensures id in w.rows ==> AfterPoll(w, s, queued, answers).rows[id] == PolledRow(w.rows[id], id, queued, answers)
    {
      RowAfterPoll(w, s, queued, answers, id);
    }
    forall id | id in w.rows
      ensures id !in queued ==> PolledRow(w.rows[id], id, queued, answers) == w.rows[id]
      ensures forall i :: 0 <= i < |queued| && queued[i] == id ==>
                PolledRow(w.rows[id], id, queued, answers)
                == if Finishes(w, id, answers[i]) then FinishedRow(w.rows[id], Verdict(answers[i]).value)
                   else w.rows[id]
    {
      PolledOnce(w.rows[id], id, queued, answers);
    }
  }
}
