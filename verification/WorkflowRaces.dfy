/** Three short runs in which a commit is made from a stale copy: two callbacks log twice for one
    queueing and move a release out of DOWNLOADED; a rejected release is queued; and a queued release is
    rejected, so that its queue slot has no exit that the table gives. */
module WorkflowRaces {
  import opened Results
  import opened Workflow
  import opened WorkflowRuns
  import opened WorkflowQueue
  import opened WorkflowAudit

  /** A release that goes through review and approval to the start of a send, all in session 0. */
  const APPROVED_EVENTS: seq<Event> :=
    [ Insert(0, 7, Release(1, "app 2.0", "2.0", Discovered, Unverified, NoFlag, None, "")),
      Move(0, 7, Staged, "admin"), Move(0, 7, UnderReview, "admin"), Approve(0, 7, "admin"), BeginSend(0, 7) ]

  const APPROVED_RELEASE := Release(1, "app 2.0", "2.0", Approved, Unverified, NoFlag, None, "admin")

  const TO_APPROVED := [ Commit(Discovered, Discovered, Staged, ByTable),
                        Commit(Staged, Staged, UnderReview, ByTable),
                        Commit(UnderReview, UnderReview, Approved, ByTable) ]

  const APPROVED_WORLD := World(
    map[7 := APPROVED_RELEASE], map[7 := TO_APPROVED], [], map[], map[(0, 7) := APPROVED_RELEASE], map[0 := Sending(7)])

  lemma RunCons(w: World, e: Event, events: seq<Event>)
    ensures Run(w, [e] + events) == Run(Step(w, e), events)
  {
    assert ([e] + events)[1..] == events;
  }

  lemma RunFive(w: World, events: seq<Event>)
    requires |events| == 5
    ensures Run(w, events) == Step(Step(Step(Step(Step(w, events[0]), events[1]), events[2]), events[3]), events[4])
  {
    hide Step;
    var three := events[1..][1..];
    var x := Step(Step(w, events[0]), events[1]);
    assert three == [events[2], events[3], events[4]] && three[1..] == [events[3], events[4]];
    assert three[1..][1..] == [events[4]] && three[1..][1..][1..] == [];
    assert Run(w, events) == Run(x, three);
    assert Run(x, three) == Run(Step(Step(x, events[2]), events[3]), [events[4]]);
    assert Run(Step(Step(x, events[2]), events[3]), [events[4]])
        == Step(Step(Step(x, events[2]), events[3]), events[4]);
  }

  const REVIEW_RELEASE := APPROVED_RELEASE.(state := UnderReview)

  const REVIEW_WORLD := World(
    map[7 := REVIEW_RELEASE], map[7 := TO_APPROVED[..2]], [], map[], map[(0, 7) := REVIEW_RELEASE], map[])

  lemma ReachReview()
    ensures Step(Step(Step(EMPTY_WORLD, APPROVED_EVENTS[0]), APPROVED_EVENTS[1]), APPROVED_EVENTS[2]) == REVIEW_WORLD
  {
    var r := APPROVED_EVENTS[0].release;
    var w1 := Step(EMPTY_WORLD, APPROVED_EVENTS[0]);
    assert w1 == World(map[7 := r], map[7 := []], [], map[], map[(0, 7) := r], map[]);
    var w2 := Step(w1, APPROVED_EVENTS[1]);
    assert w2.past[7] == TO_APPROVED[..1];
    assert Step(w2, APPROVED_EVENTS[2]).past[7] == TO_APPROVED[..2];
  }

  lemma ReachSend()
    ensures Step(Step(REVIEW_WORLD, APPROVED_EVENTS[3]), APPROVED_EVENTS[4]) == APPROVED_WORLD
  {
    assert Step(REVIEW_WORLD, APPROVED_EVENTS[3]).past[7] == TO_APPROVED;
  }

  lemma ReachApproved()
    ensures Run(EMPTY_WORLD, APPROVED_EVENTS) == APPROVED_WORLD
  {
    RunFive(EMPTY_WORLD, APPROVED_EVENTS);
    ReachReview();
    ReachSend();
    hide *;
  }

  lemma RunTwo(w: World, e: Event, f: Event, events: seq<Event>)
    ensures Run(w, [e, f] + events) == Run(Step(Step(w, e), f), events)
  {
    assert [e, f] + events == [e] + ([f] + events);
    RunCons(w, e, [f] + events);
    RunCons(Step(w, e), f, events);
  }

  // ----- two callbacks -----

  const QUEUED_RELEASE := APPROVED_RELEASE.(state := Queued)
  const DONE_RELEASE := QUEUED_RELEASE.(state := Downloaded, changedBy := "hook")
  const FAILED_RELEASE := QUEUED_RELEASE.(state := DownloadFailed, changedBy := "poller")

  const TO_QUEUED := TO_APPROVED + [Commit(Approved, Approved, Queued, ByTable)]
  const TO_DONE := TO_QUEUED + [Commit(Queued, Queued, Downloaded, ByCompletion)]
  const TO_FAILED := TO_DONE + [Commit(Downloaded, Queued, DownloadFailed, ByCompletion)]

  const BOTH_LOADED := World(
    map[7 := QUEUED_RELEASE], map[7 := TO_QUEUED], [], map[],
    map[(0, 7) := QUEUED_RELEASE, (1, 7) := QUEUED_RELEASE, (2, 7) := QUEUED_RELEASE], map[])

  const FIRST_LOGGED := World(
    map[7 := DONE_RELEASE], map[7 := TO_DONE], [Audit(true, 7, "hook")], map[],
    BOTH_LOADED.held[(1, 7) := DONE_RELEASE], map[])

  const SECOND_LOGGED := World(
    map[7 := FAILED_RELEASE], map[7 := TO_FAILED], [Audit(true, 7, "hook")] + [Audit(false, 7, "poller")], map[],
    FIRST_LOGGED.held[(2, 7) := FAILED_RELEASE], map[])

  /** Two callbacks both read the release while it is queued; then each commits and logs. */
  const FIRST_CALLBACK: seq<Event> := [Complete(1, 7, true, "hook"), LogCompletion(1)]
  const SECOND_CALLBACK: seq<Event> := [Complete(2, 7, false, "poller"), LogCompletion(2)]
  const RACING_CALLBACKS: seq<Event> :=
    [Enqueue(0, "admin")] + ([Load(1, 7), Load(2, 7)] + (FIRST_CALLBACK + (SECOND_CALLBACK + [])))

  lemma BothLoad()
    ensures Step(Step(Step(APPROVED_WORLD, Enqueue(0, "admin")), Load(1, 7)), Load(2, 7)) == BOTH_LOADED
  {
    assert Step(APPROVED_WORLD, Enqueue(0, "admin"))
        == World(map[7 := QUEUED_RELEASE], map[7 := TO_QUEUED], [], map[], map[(0, 7) := QUEUED_RELEASE], map[]);
  }

  lemma FirstLogs()
    ensures Step(Step(BOTH_LOADED, FIRST_CALLBACK[0]), FIRST_CALLBACK[1]) == FIRST_LOGGED
  {
    assert Step(BOTH_LOADED, FIRST_CALLBACK[0]).past[7] == TO_DONE;
  }

  lemma SecondLogs()
    ensures Step(Step(FIRST_LOGGED, SECOND_CALLBACK[0]), SECOND_CALLBACK[1]) == SECOND_LOGGED
  {
    assert Step(FIRST_LOGGED, SECOND_CALLBACK[0]).past[7] == TO_FAILED;
  }

  lemma RacingCallbacksEnd()
    ensures Run(EMPTY_WORLD, APPROVED_EVENTS + RACING_CALLBACKS) == SECOND_LOGGED
  {
    ReachApproved();
    RunAppend(EMPTY_WORLD, APPROVED_EVENTS, RACING_CALLBACKS);
    BothLoad();
    FirstLogs();
    SecondLogs();
    RunCons(APPROVED_WORLD, Enqueue(0, "admin"), [Load(1, 7), Load(2, 7)] + (FIRST_CALLBACK + (SECOND_CALLBACK + [])));
    RunTwo(Step(APPROVED_WORLD, Enqueue(0, "admin")), Load(1, 7), Load(2, 7), FIRST_CALLBACK + (SECOND_CALLBACK + []));
    RunTwo(BOTH_LOADED, FIRST_CALLBACK[0], FIRST_CALLBACK[1], SECOND_CALLBACK + []);
    RunTwo(FIRST_LOGGED, SECOND_CALLBACK[0], SECOND_CALLBACK[1], []);
  }

  lemma EntriesToFailed()
    ensures Count(TO_FAILED, Entry) == 1
  {
    CountLast([], TO_APPROVED[0], Entry);
    CountLast([] + [TO_APPROVED[0]], TO_APPROVED[1], Entry);
    CountLast([] + [TO_APPROVED[0]] + [TO_APPROVED[1]], TO_APPROVED[2], Entry);
    assert TO_APPROVED == [] + [TO_APPROVED[0]] + [TO_APPROVED[1]] + [TO_APPROVED[2]];
    CountLast(TO_APPROVED, Commit(Approved, Approved, Queued, ByTable), Entry);
    CountLast(TO_QUEUED, Commit(Queued, Queued, Downloaded, ByCompletion), Entry);
    CountLast(TO_DONE, Commit(Downloaded, Queued, DownloadFailed, ByCompletion), Entry);
  }

  /** Two callbacks can log two outcomes for one queueing, and DOWNLOADED can be left without an override. */
  lemma RacingCallbacksLogTwice()
    ensures var w := Run(EMPTY_WORLD, APPROVED_EVENTS + RACING_CALLBACKS);
            && Past(w, 7) == TO_QUEUED + [Commit(Queued, Queued, Downloaded, ByCompletion)]
                             + [Commit(Downloaded, Queued, DownloadFailed, ByCompletion)]
            && Count(Past(w, 7), Entry) == 1
            && Logged(w.audit, 7, true) + Logged(w.audit, 7, false) == 2
  {
    RacingCallbacksEnd();
    EntriesToFailed();
    LoggedAppend([Audit(true, 7, "hook")], [Audit(false, 7, "poller")], 7, true);
    LoggedAppend([Audit(true, 7, "hook")], [Audit(false, 7, "poller")], 7, false);
  }

  // ----- a rejection during a send -----

  const REJECTED_RELEASE := APPROVED_RELEASE.(state := Rejected)
  const TO_REJECTED := TO_APPROVED + [Commit(Approved, Approved, Rejected, ByTable)]

  const REJECTED_WORLD := World(
    map[7 := REJECTED_RELEASE], map[7 := TO_REJECTED], [], map[],
    map[(0, 7) := APPROVED_RELEASE, (1, 7) := REJECTED_RELEASE], map[0 := Sending(7)])

  /** An admin rejects the release while session 0 waits for the download client. */
  const REJECT_DURING_SEND: seq<Event> :=
    [Load(1, 7), Move(1, 7, Rejected, "admin")] + ([StoreJob(0, "job"), Enqueue(0, "admin")] + [])

  lemma RejectionCommits()
    ensures Step(Step(APPROVED_WORLD, Load(1, 7)), Move(1, 7, Rejected, "admin")) == REJECTED_WORLD
  {
    assert Step(Step(APPROVED_WORLD, Load(1, 7)), Move(1, 7, Rejected, "admin")).past[7] == TO_REJECTED;
  }

  const TO_QUEUED_AGAIN := TO_REJECTED + [Commit(Rejected, Approved, Queued, ByTable)]

  const SENT_WORLD := World(
    map[7 := REJECTED_RELEASE.(job := Some("job"), state := Queued)], map[7 := TO_QUEUED_AGAIN], [], map[],
    map[(0, 7) := APPROVED_RELEASE.(state := Queued), (1, 7) := REJECTED_RELEASE], map[])

  lemma SendGoesThrough()
    ensures Step(Step(REJECTED_WORLD, StoreJob(0, "job")), Enqueue(0, "admin")) == SENT_WORLD
  {
    var stored := Step(REJECTED_WORLD, StoreJob(0, "job"));
    assert stored == REJECTED_WORLD.(rows := map[7 := REJECTED_RELEASE.(job := Some("job"))]);
    assert Step(stored, Enqueue(0, "admin")).past[7] == TO_QUEUED_AGAIN;
  }

  /** The rejected release is queued all the same, with the job it was sent as. */
  lemma RejectedReleaseIsQueued()
    ensures var w := Run(EMPTY_WORLD, APPROVED_EVENTS + REJECT_DURING_SEND);
            && 7 in w.rows && w.rows[7].state == Queued && w.rows[7].job == Some("job")
            && Past(w, 7) == TO_REJECTED + [Commit(Rejected, Approved, Queued, ByTable)]
  {
    ReachApproved();
    RunAppend(EMPTY_WORLD, APPROVED_EVENTS, REJECT_DURING_SEND);
    RejectionCommits();
    SendGoesThrough();
    RunTwo(APPROVED_WORLD, Load(1, 7), Move(1, 7, Rejected, "admin"), [StoreJob(0, "job"), Enqueue(0, "admin")] + []);
    RunTwo(REJECTED_WORLD, StoreJob(0, "job"), Enqueue(0, "admin"), []);
  }

  // ----- a rejection of a queued release -----

  const TO_LOST := TO_QUEUED + [Commit(Queued, Approved, Rejected, ByTable)]

  /** An admin's session reads the approved release, the send queues it, and then the admin rejects it. */
  const REJECT_QUEUED: seq<Event> := [Load(1, 7), Enqueue(0, "admin")] + ([Move(1, 7, Rejected, "admin")] + [])

  const QUEUED_UNSEEN := World(
    map[7 := QUEUED_RELEASE], map[7 := TO_QUEUED], [], map[],
    map[(0, 7) := QUEUED_RELEASE, (1, 7) := APPROVED_RELEASE], map[])

  lemma SendQueues()
    ensures Step(Step(APPROVED_WORLD, Load(1, 7)), Enqueue(0, "admin")) == QUEUED_UNSEEN
  {
    assert Step(Step(APPROVED_WORLD, Load(1, 7)), Enqueue(0, "admin")).past[7] == TO_QUEUED;
  }

  lemma EntriesToLost()
    ensures Count(TO_LOST, Entry) == 1
    ensures Slots(TO_LOST) == 0
  {
    CountEach(TO_LOST, Entry);
    CountEach(TO_LOST, Exit(Downloaded));
    CountEach(TO_LOST, Exit(DownloadFailed));
    CountEach(TO_LOST, Exit(Approved));
  }

  lemma CountEach(past: seq<Commit>, k: Tally)
    requires |past| == 5
    ensures Count(past, k) == (if Counts(k, past[0]) then 1 else 0) + (if Counts(k, past[1]) then 1 else 0)
                              + (if Counts(k, past[2]) then 1 else 0) + (if Counts(k, past[3]) then 1 else 0)
                              + (if Counts(k, past[4]) then 1 else 0)
  {
    assert Count([], k) == 0;
    hide Counts, Count;
    CountLast([], past[0], k);
    CountLast([past[0]], past[1], k);
    CountLast([past[0], past[1]], past[2], k);
    CountLast([past[0], past[1], past[2]], past[3], k);
    CountLast([past[0], past[1], past[2], past[3]], past[4], k);
    assert [] + [past[0]] == [past[0]] && [past[0]] + [past[1]] == [past[0], past[1]];
    assert [past[0], past[1]] + [past[2]] == [past[0], past[1], past[2]];
    assert [past[0], past[1], past[2]] + [past[3]] == [past[0], past[1], past[2], past[3]];
    assert past == [past[0], past[1], past[2], past[3]] + [past[4]];
  }

  /** Queue slots are not conserved: the release entered the queue once, is not queued, and made none
      of the exits. */
  lemma QueueSlotIsLost()
    ensures var w := Run(EMPTY_WORLD, APPROVED_EVENTS + REJECT_QUEUED);
            && 7 in w.rows && w.rows[7].state == Rejected
            && Past(w, 7) == TO_LOST
            && Count(Past(w, 7), Entry) == 1 && Slots(Past(w, 7)) == 0
  {
    ReachApproved();
    RunAppend(EMPTY_WORLD, APPROVED_EVENTS, REJECT_QUEUED);
    SendQueues();
    RunTwo(APPROVED_WORLD, Load(1, 7), Enqueue(0, "admin"), [Move(1, 7, Rejected, "admin")] + []);
    RunCons(QUEUED_UNSEEN, Move(1, 7, Rejected, "admin"), []);
    EntriesToLost();
    hide Count, Slots;
    assert Step(QUEUED_UNSEEN, Move(1, 7, Rejected, "admin")).past[7] == TO_LOST;
  }
}
