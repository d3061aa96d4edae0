/** Counting entries to and exits from the download queue, over whole runs: exactly which runs conserve
    queue slots, keep a release downloaded and queue it from APPROVED only, and that runs which commit the
    release from fresh copies only are among them. */
module WorkflowQueue {
  import opened Results
  import opened Workflow
  import opened WorkflowRuns
  import opened WorkflowSteps

  datatype Tally =
    | Entry
    | Exit(target: State)
    | Finished(success: bool)
    | Late(success: bool)
    | Plain(success: bool)
    | Overridden

  /** Finished counts commits of download callbacks, Late those of them that found the release no longer
      queued; Plain counts the other commits that took it from the queue to an outcome. */
  predicate Counts(k: Tally, c: Commit) {
    match k
    case Entry => c.before != Queued && c.after == Queued
    case Exit(target) => c.before == Queued && c.after == target && target != Queued
    case Finished(success) => c.cause == ByCompletion && c.after == Outcome(success)
    case Late(success) => c.cause == ByCompletion && c.after == Outcome(success) && c.before != Queued
    case Plain(success) => c.cause != ByCompletion && c.after == Outcome(success) && c.before == Queued
    case Overridden => c.cause == ByOverride
  }

  function Count(past: seq<Commit>, k: Tally): nat {
    if past == [] then 0
    else Count(past[..|past| - 1], k) + if Counts(k, past[|past| - 1]) then 1 else 0
  }

  lemma CountLast(past: seq<Commit>, c: Commit, k: Tally)
    ensures Count(past + [c], k) == Count(past, k) + if Counts(k, c) then 1 else 0
  {
    hide Counts;
    assert (past + [c])[..|past|] == past;
  }

  lemma CountMore(past: seq<Commit>, c: Option<Commit>, k: Tally)
    ensures Count(past + Committed(c), k) == Count(past, k) + if c.Some? && Counts(k, c.value) then 1 else 0
  {
    hide Counts, Count;
    if c.Some? {
      CountLast(past, c.value, k);
    } else {
      assert past + [] == past;
    }
  }

  /** How one event changes a count of the release's history. */
  lemma StepCount(w: World, e: Event, id: Id, k: Tally)
    ensures var c := CommitOf(w, e, id);
            Count(Past(Step(w, e), id), k) == Count(Past(w, id), k) + if c.Some? && Counts(k, c.value) then 1 else 0
  {
    StepFollows(w, e, id);
    CountMore(Past(w, id), CommitOf(w, e, id), k);
    hide Step, CommitOf, Counts, Count, Committed;
  }

  /** No plain or completion commit was made from a stale copy. */
  ghost predicate AllFresh(past: seq<Commit>) {
    forall i :: 0 <= i < |past| && past[i].cause != ByOverride ==> past[i].seen == past[i].before
  }

  ghost predicate NoOverride(past: seq<Commit>) {
    forall i :: 0 <= i < |past| ==> past[i].cause != ByOverride
  }

  lemma LegalPrefix(past: seq<Commit>, n: nat)
    requires LegalHistory(past) && n <= |past|
    ensures LegalHistory(past[..n])
    ensures AllFresh(past) ==> AllFresh(past[..n])
  {
    forall i | 0 <= i < n
      ensures past[..n][i].before == Current(past[..n][..i]) && Justified(past[..n][..i], past[..n][i])
    {
      assert past[..n][..i] == past[..i];
    }
  }

  function ExitsAnywhere(past: seq<Commit>): nat {
    Count(past, Exit(Discovered)) + Count(past, Exit(Staged)) + Count(past, Exit(UnderReview))
    + Count(past, Exit(Approved)) + Count(past, Exit(Rejected))
    + Count(past, Exit(Downloaded)) + Count(past, Exit(DownloadFailed))
  }

  lemma ExitsLast(past: seq<Commit>, c: Commit)
    ensures ExitsAnywhere(past + [c])
         == ExitsAnywhere(past) + if c.before == Queued && c.after != Queued then 1 else 0
  {
    CountLast(past, c, Exit(Discovered));
    CountLast(past, c, Exit(Staged));
    CountLast(past, c, Exit(UnderReview));
    CountLast(past, c, Exit(Approved));
    CountLast(past, c, Exit(Rejected));
    CountLast(past, c, Exit(Downloaded));
    CountLast(past, c, Exit(DownloadFailed));
    hide Count;
  }

  lemma LastCommit(past: seq<Commit>)
    requires LegalHistory(past) && past != []
    ensures var n := |past| - 1;
            && past == past[..n] + [past[n]] && LegalHistory(past[..n])
            && past[n].before == Current(past[..n]) && past[n].after == Current(past)
  {
    LegalPrefix(past, |past| - 1);
  }

  /** Whatever the sessions held, every entry into the queue is matched by one exit, except
      the last one when the release is queued now. */
  lemma {:induction false} QueueSlots(past: seq<Commit>)
    requires LegalHistory(past)
    ensures Count(past, Entry) == ExitsAnywhere(past) + if Current(past) == Queued then 1 else 0
  {
    if past == [] {
      assert ExitsAnywhere([]) == 0;
    } else {
      var n := |past| - 1;
      hide Count, ExitsAnywhere, LegalHistory, Current;
      LastCommit(past);
      QueueSlots(past[..n]);
      ExitsLast(past[..n], past[n]);
      CountLast(past[..n], past[n], Entry);
    }
  }

  /** What a commit from a fresh copy, or an override, cannot be. */
  predicate Impossible(k: Tally) {
    match k
    case Exit(target) => target in {Discovered, Staged, UnderReview, Rejected}
    case Late(_) => true
    case _ => false
  }

  lemma FreshCannot(past: seq<Commit>, c: Commit, k: Tally)
    requires Justified(past, c) && (c.cause != ByOverride ==> c.seen == c.before) && Impossible(k)
    ensures !Counts(k, c)
  {
    hide WasIn;
  }

  lemma {:induction false} FreshNever(past: seq<Commit>, k: Tally)
    requires LegalHistory(past) && AllFresh(past) && Impossible(k)
    ensures Count(past, k) == 0
  {
    if past != [] {
      var n := |past| - 1;
      LegalPrefix(past, n);
      assert Justified(past[..n], past[n]) && past == past[..n] + [past[n]];
      FreshCannot(past[..n], past[n], k);
      hide LegalHistory, AllFresh, Justified, Count, Impossible, Counts;
      FreshNever(past[..n], k);
      CountLast(past[..n], past[n], k);
    }
  }

  /** From fresh copies a release leaves the queue only as downloaded, as failed or back to approved. */
  lemma FreshExits(past: seq<Commit>)
    requires LegalHistory(past) && AllFresh(past)
    ensures ExitsAnywhere(past)
         == Count(past, Exit(Downloaded)) + Count(past, Exit(DownloadFailed)) + Count(past, Exit(Approved))
    ensures Count(past, Late(true)) == 0 && Count(past, Late(false)) == 0
  {
    FreshNever(past, Exit(Discovered));
    FreshNever(past, Exit(Staged));
    FreshNever(past, Exit(UnderReview));
    FreshNever(past, Exit(Rejected));
    FreshNever(past, Late(true));
    FreshNever(past, Late(false));
  }

  /** The commits to an outcome: of callbacks or plain, from the queue or late. */
  lemma {:induction false} OutcomeBalance(past: seq<Commit>, success: bool)
    ensures Count(past, Finished(success)) + Count(past, Plain(success))
         == Count(past, Exit(Outcome(success))) + Count(past, Late(success))
  {
    if past != [] {
      OutcomeBalance(past[..|past| - 1], success);
    }
  }

  lemma NextBefore(past: seq<Commit>, i: nat)
    requires LegalHistory(past) && i + 1 < |past|
    ensures past[i + 1].before == past[i].after
  {
    assert past[i + 1].before == Current(past[..i + 1]);
  }

  lemma NeverFromDownloaded(past: seq<Commit>, i: nat)
    requires LegalHistory(past) && AllFresh(past) && NoOverride(past) && i < |past|
    ensures past[i].before != Downloaded
  {
    assert Justified(past[..i], past[i]);
  }

  /** From fresh copies and without overrides DOWNLOADED can only be the last state of a history. */
  lemma DownloadedIsLast(past: seq<Commit>, i: nat)
    requires LegalHistory(past) && AllFresh(past) && NoOverride(past)
    requires i + 1 < |past|
    ensures past[i].after != Downloaded
  {
    NextBefore(past, i);
    NeverFromDownloaded(past, i + 1);
  }

  // ----- events along a run -----

  /** Every event of the run is as `ok` says of it and of the state in which it comes. */
  ghost predicate Throughout(w: World, events: seq<Event>, ok: (World, Event) -> bool)
    decreases |events|
  {
    events == [] || (ok(w, events[0]) && Throughout(Step(w, events[0]), events[1..], ok))
  }

  lemma RunPrefix(w: World, events: seq<Event>, k: nat)
    requires 0 < k <= |events|
    ensures Run(w, events[..k]) == Run(Step(w, events[0]), events[1..][..k - 1])
  {
    hide Step;
    assert events[..k][0] == events[0] && events[..k][1..] == events[1..][..k - 1];
  }

  lemma {:induction false} ThroughoutMeans(w: World, events: seq<Event>, ok: (World, Event) -> bool)
    ensures Throughout(w, events, ok) <==> forall k :: 0 <= k < |events| ==> ok(Run(w, events[..k]), events[k])
    decreases |events|
  {
    hide Step;
    if events != [] {
      var next, rest := Step(w, events[0]), events[1..];
      ThroughoutMeans(next, rest, ok);
      assert events[..0] == [] && Run(w, []) == w;
      forall k | 0 < k < |events|
        ensures ok(Run(w, events[..k]), events[k]) <==> ok(Run(next, rest[..k - 1]), rest[k - 1])
      {
        RunPrefix(w, events, k);
      }
      assert forall k :: 0 <= k < |rest| ==>
               (ok(Run(next, rest[..k]), rest[k]) <==> ok(Run(w, events[..k + 1]), events[k + 1]));
    }
  }

  lemma {:induction false} ThroughoutImplies(
      w: World, events: seq<Event>, ok: (World, Event) -> bool, good: (World, Event) -> bool)
    requires Throughout(w, events, ok)
    requires forall v, e :: ok(v, e) ==> good(v, e)
    ensures Throughout(w, events, good)
    decreases |events|
  {
    hide Step;
    if events != [] {
      ThroughoutImplies(Step(w, events[0]), events[1..], ok, good);
    }
  }

  /** The session's copy of the release agrees with the stored state. */
  predicate FreshCopy(w: World, s: Session, id: Id) {
    (s, id) in w.held && id in w.rows ==> w.held[(s, id)].state == w.rows[id].state
  }

  /** The event does not commit the release's state from a stale copy; other releases do not matter. */
  predicate FreshFor(w: World, e: Event, id: Id) {
    match e
    case Move(s, r, _, _) => r == id ==> FreshCopy(w, s, id)
    case Approve(s, r, _) => r == id ==> FreshCopy(w, s, id)
    case Complete(s, r, _, _) => r == id ==> FreshCopy(w, s, id)
    case Enqueue(s, _) => s in w.tasks && w.tasks[s].id == id ==> FreshCopy(w, s, id)
    case _ => true
  }

  /** Nobody else commits to the release between a session's read of it and its commit. */
  ghost predicate FreshRun(w: World, events: seq<Event>, id: Id) {
    Throughout(w, events, (v, e) => FreshFor(v, e, id))
  }

  /** A commit from a fresh copy saw what was stored. */
  lemma FreshSees(w: World, e: Event, id: Id)
    requires FreshFor(w, e, id) && CommitOf(w, e, id).Some?
    ensures var c := CommitOf(w, e, id).value; c.cause != ByOverride ==> c.seen == c.before
  {
    hide Written, Allowed;
  }

  lemma FreshStepKeeps(w: World, e: Event, id: Id)
    requires FreshFor(w, e, id) && AllFresh(Past(w, id))
    ensures AllFresh(Past(Step(w, e), id))
  {
    StepFollows(w, e, id);
    if CommitOf(w, e, id).Some? {
      FreshSees(w, e, id);
    }
    hide Step, FreshFor, CommitOf;
  }

  lemma {:induction false} FreshRunKeeps(w: World, events: seq<Event>, id: Id)
    requires FreshRun(w, events, id) && AllFresh(Past(w, id))
    ensures AllFresh(Past(Run(w, events), id))
    decreases |events|
  {
    hide Step, FreshFor, AllFresh;
    if events != [] {
      FreshStepKeeps(w, events[0], id);
      FreshRunKeeps(Step(w, events[0]), events[1..], id);
    }
  }

  lemma LegalRun(events: seq<Event>, id: Id)
    ensures LegalHistory(Past(Run(EMPTY_WORLD, events), id))
  {
    assert Inv(EMPTY_WORLD, id);
    hide Step, LegalHistory;
    RunKeeps(EMPTY_WORLD, events, id);
  }

  // ----- what ends DOWNLOADED -----

  /** An accepted write to the release, from whatever copy, whose target is not DOWNLOADED. An override
      from a copy that already is APPROVED does not write the state. */
  predicate Ends(w: World, e: Event, id: Id) {
    match e
    case Move(s, r, target, _) => r == id && target != Downloaded && CanMove(w, s, id, target)
    case Approve(s, r, _) => r == id && CanMove(w, s, id, Approved)
    case Complete(s, r, success, _) => r == id && !success && CanMove(w, s, id, DownloadFailed)
    case Enqueue(s, _) => CanQueue(w, s, id)
    case Override(s, r, _, reason) =>
      r == id && OverrideAccepted(w, s, id, reason) && w.held[(s, id)].state != Approved
    case _ => false
  }

  lemma EndsMeans(w: World, e: Event, id: Id)
    requires id in w.rows ==> w.rows[id].state == Downloaded
    ensures Ends(w, e, id) <==> CommitOf(w, e, id).Some? && CommitOf(w, e, id).value.after != Downloaded
  {
  }

  /** The release is stored as DOWNLOADED, or it is deleted. */
  predicate DownloadedOrGone(w: World, id: Id) {
    id in w.past && (id in w.rows ==> w.rows[id].state == Downloaded)
  }

  /** A stored release leaves DOWNLOADED at exactly these events. */
  lemma StepEnds(w: World, e: Event, id: Id)
    requires DownloadedOrGone(w, id)
    ensures DownloadedOrGone(Step(w, e), id) <==> !Ends(w, e, id)
  {
    StepFollows(w, e, id);
    EndsMeans(w, e, id);
    hide Step, Ends, CommitOf;
  }

  lemma {:induction false} EndsOnce(w: World, events: seq<Event>, id: Id)
    requires DownloadedOrGone(w, id)
    ensures Throughout(w, events, (v, e) => !Ends(v, e, id))
       <==> forall k :: 0 <= k <= |events| ==> DownloadedOrGone(Run(w, events[..k]), id)
    decreases |events|
  {
    hide Step, Ends, DownloadedOrGone;
    assert events[..0] == [] && Run(w, []) == w;
    if events != [] {
      var next, rest := Step(w, events[0]), events[1..];
      StepEnds(w, events[0], id);
      forall k | 0 < k <= |events|
        ensures Run(w, events[..k]) == Run(next, rest[..k - 1])
      {
        RunPrefix(w, events, k);
      }
      assert rest[..0] == [] && Run(next, []) == next;
      assert DownloadedOrGone(Run(w, events[..1]), id) == DownloadedOrGone(next, id);
      if DownloadedOrGone(next, id) {
        EndsOnce(next, rest, id);
        assert forall k :: 0 <= k <= |rest| ==> Run(next, rest[..k]) == Run(w, events[..k + 1]);
      }
    }
  }

  /** For every run: the release stays DOWNLOADED, until it is deleted, exactly if no write to it with
      another target is accepted along the way. */
  lemma DownloadedUntil(w: World, events: seq<Event>, id: Id)
    requires DownloadedOrGone(w, id)
    ensures (forall k :: 0 <= k <= |events| ==> DownloadedOrGone(Run(w, events[..k]), id))
       <==> (forall k :: 0 <= k < |events| ==> !Ends(Run(w, events[..k]), events[k], id))
  {
    hide *;
    EndsOnce(w, events, id);
    ThroughoutMeans(w, events, (v, e) => !Ends(v, e, id));
  }

  predicate NoOverrideOf(events: seq<Event>, id: Id) {
    forall i :: 0 <= i < |events| ==> !(events[i].Override? && events[i].id == id)
  }

  lemma FreshNotEnds(w: World, e: Event, id: Id)
    requires FreshFor(w, e, id) && DownloadedOrGone(w, id) && !(e.Override? && e.id == id)
    ensures !Ends(w, e, id)
  {
  }

  lemma {:induction false} FreshNeverEnds(w: World, events: seq<Event>, id: Id)
    requires FreshRun(w, events, id) && NoOverrideOf(events, id) && DownloadedOrGone(w, id)
    ensures Throughout(w, events, (v, e) => !Ends(v, e, id))
    decreases |events|
  {
    if events != [] {
      var next, rest := Step(w, events[0]), events[1..];
      assert NoOverrideOf(rest, id);
      assert FreshFor(w, events[0], id) && !(events[0].Override? && events[0].id == id);
      FreshNotEnds(w, events[0], id);
      StepEnds(w, events[0], id);
      hide Step, Ends, FreshFor, DownloadedOrGone, NoOverrideOf;
      FreshNeverEnds(next, rest, id);
    }
  }

  /** DOWNLOADED is absorbing when the release is committed from fresh copies and not overridden. */
  lemma DownloadedStays(w: World, events: seq<Event>, id: Id)
    requires FreshRun(w, events, id) && NoOverrideOf(events, id)
    requires DownloadedOrGone(w, id)
    ensures DownloadedOrGone(Run(w, events), id)
  {
    FreshNeverEnds(w, events, id);
    hide *;
    EndsOnce(w, events, id);
    assert events[..|events|] == events;
  }

  // ----- what breaks the balance of the queue -----

  /** A plain transition takes the release out of the queue to a state the table does not lead to from
      there: the session works from a copy taken before the release was queued. */
  predicate Strays(w: World, e: Event, id: Id) {
    && e.Move?
    && e.id == id
    && e.target in {Discovered, Staged, UnderReview, Rejected}
    && CanMove(w, e.s, id, e.target)
    && w.rows[id].state == Queued
  }

  /** How often that happens along a run. */
  function StrayMoves(w: World, events: seq<Event>, id: Id): nat
    decreases |events|
  {
    if events == [] then 0
    else (if Strays(w, events[0], id) then 1 else 0) + StrayMoves(Step(w, events[0]), events[1..], id)
  }

  function StrayExits(past: seq<Commit>): nat {
    Count(past, Exit(Discovered)) + Count(past, Exit(Staged))
    + Count(past, Exit(UnderReview)) + Count(past, Exit(Rejected))
  }

  lemma StrayExitsLast(past: seq<Commit>, c: Commit)
    ensures StrayExits(past + [c])
         == StrayExits(past)
            + if c.before == Queued && c.after in {Discovered, Staged, UnderReview, Rejected} then 1 else 0
  {
    CountLast(past, c, Exit(Discovered));
    CountLast(past, c, Exit(Staged));
    CountLast(past, c, Exit(UnderReview));
    CountLast(past, c, Exit(Rejected));
  }

  lemma StrayCommit(w: World, e: Event, id: Id)
    ensures var c := CommitOf(w, e, id);
            Strays(w, e, id) <==>
              c.Some? && c.value.before == Queued && c.value.after in {Discovered, Staged, UnderReview, Rejected}
  {
  }

  lemma StepStrays(w: World, e: Event, id: Id)
    ensures StrayExits(Past(Step(w, e), id)) == StrayExits(Past(w, id)) + if Strays(w, e, id) then 1 else 0
  {
    StepFollows(w, e, id);
    StrayCommit(w, e, id);
    hide Step, CommitOf, Strays, StrayExits;
    var c := CommitOf(w, e, id);
    if c.Some? {
      StrayExitsLast(Past(w, id), c.value);
    } else {
      assert Past(w, id) + [] == Past(w, id);
    }
  }

  lemma {:induction false} RunStrays(w: World, events: seq<Event>, id: Id)
    ensures StrayExits(Past(Run(w, events), id)) == StrayExits(Past(w, id)) + StrayMoves(w, events, id)
    decreases |events|
  {
    hide Step, Strays, StrayExits;
    if events != [] {
      StepStrays(w, events[0], id);
      RunStrays(Step(w, events[0]), events[1..], id);
    }
  }

  /** Entries into the queue and the three exits that the table gives, with the slot held now. */
  function Slots(past: seq<Commit>): nat {
    Count(past, Exit(Downloaded)) + Count(past, Exit(DownloadFailed)) + Count(past, Exit(Approved))
    + if Current(past) == Queued then 1 else 0
  }

  /** In every run, whatever the sessions hold: entries into the queue are the exits to DOWNLOADED,
      DOWNLOAD_FAILED and APPROVED, plus one if the release is queued now, plus the stray moves. */
  lemma QueueLedger(events: seq<Event>, id: Id)
    ensures var w := Run(EMPTY_WORLD, events);
            && Count(Past(w, id), Entry) == Slots(Past(w, id)) + StrayMoves(EMPTY_WORLD, events, id)
            && (id in w.rows ==> w.rows[id].state == Current(Past(w, id)))
  {
    LegalRun(events, id);
    QueueSlots(Past(Run(EMPTY_WORLD, events), id));
    RunStrays(EMPTY_WORLD, events, id);
    assert Past(EMPTY_WORLD, id) == [];
    hide Step;
    if id in Run(EMPTY_WORLD, events).rows {
      EveryReleaseIsVetted(events, id);
    }
  }

  lemma {:induction false} NoStrayMoves(w: World, events: seq<Event>, id: Id)
    ensures StrayMoves(w, events, id) == 0 <==> Throughout(w, events, (v, e) => !Strays(v, e, id))
    decreases |events|
  {
    hide Step, Strays;
    if events != [] {
      NoStrayMoves(Step(w, events[0]), events[1..], id);
    }
  }

  /** Queue slots are conserved exactly if no transition to DISCOVERED, STAGED, UNDER_REVIEW or REJECTED
      is accepted while the release is stored as queued. */
  lemma QueueConservation(events: seq<Event>, id: Id)
    ensures (var past := Past(Run(EMPTY_WORLD, events), id); Count(past, Entry) == Slots(past))
       <==> (forall k :: 0 <= k < |events| ==> !Strays(Run(EMPTY_WORLD, events[..k]), events[k], id))
  {
    hide *;
    QueueLedger(events, id);
    NoStrayMoves(EMPTY_WORLD, events, id);
    ThroughoutMeans(EMPTY_WORLD, events, (v, e) => !Strays(v, e, id));
  }

  /** So they are conserved in every run that commits this release from fresh copies. */
  lemma FreshConservation(events: seq<Event>, id: Id)
    requires FreshRun(EMPTY_WORLD, events, id)
    ensures var past := Past(Run(EMPTY_WORLD, events), id); Count(past, Entry) == Slots(past)
  {
    assert forall v, e :: FreshFor(v, e, id) ==> !Strays(v, e, id);
    ThroughoutImplies(EMPTY_WORLD, events, (v, e) => FreshFor(v, e, id), (v, e) => !Strays(v, e, id));
    NoStrayMoves(EMPTY_WORLD, events, id);
    QueueLedger(events, id);
  }

  // ----- where the queue is entered from -----

  /** An accepted transition of the release into the queue, plain or at the end of a send. */
  predicate Queueing(w: World, e: Event, id: Id) {
    match e
    case Move(s, r, target, _) => r == id && target == Queued && CanMove(w, s, id, Queued)
    case Enqueue(s, _) => CanQueue(w, s, id)
    case _ => false
  }

  /** An accepted queueing finds the release stored as APPROVED exactly if it is made from a fresh copy. */
  lemma QueueingIsFresh(w: World, e: Event, id: Id)
    requires Queueing(w, e, id)
    ensures w.rows[id].state == Approved <==> FreshFor(w, e, id)
  {
  }

  /** One that finds it stored in another state, from which it enters the queue. */
  predicate Misqueues(w: World, e: Event, id: Id) {
    Queueing(w, e, id) && w.rows[id].state != Approved && w.rows[id].state != Queued
  }

  lemma MisqueueCommit(w: World, e: Event, id: Id)
    ensures var c := CommitOf(w, e, id);
            Misqueues(w, e, id) <==>
              c.Some? && c.value.after == Queued && c.value.before != Queued && c.value.before != Approved
  {
  }

  /** Every entry into the queue is from APPROVED. */
  ghost predicate FromApproved(past: seq<Commit>) {
    forall i :: 0 <= i < |past| && past[i].after == Queued && past[i].before != Queued ==> past[i].before == Approved
  }

  lemma FromApprovedMore(past: seq<Commit>, c: Commit)
    ensures FromApproved(past + [c])
       <==> FromApproved(past) && (c.after == Queued && c.before != Queued ==> c.before == Approved)
  {
    assert (past + [c])[|past|] == c;
    assert forall i :: 0 <= i < |past| ==> (past + [c])[i] == past[i];
  }

  lemma StepFromApproved(w: World, e: Event, id: Id)
    ensures FromApproved(Past(Step(w, e), id)) <==> FromApproved(Past(w, id)) && !Misqueues(w, e, id)
  {
    StepFollows(w, e, id);
    MisqueueCommit(w, e, id);
    hide Step, CommitOf, Misqueues, FromApproved;
    var c := CommitOf(w, e, id);
    if c.Some? {
      FromApprovedMore(Past(w, id), c.value);
    } else {
      assert Past(w, id) + [] == Past(w, id);
    }
  }

  lemma {:induction false} RunFromApproved(w: World, events: seq<Event>, id: Id)
    ensures FromApproved(Past(Run(w, events), id))
       <==> FromApproved(Past(w, id)) && Throughout(w, events, (v, e) => !Misqueues(v, e, id))
    decreases |events|
  {
    hide Step, Misqueues, FromApproved;
    if events != [] {
      StepFromApproved(w, events[0], id);
      RunFromApproved(Step(w, events[0]), events[1..], id);
    }
  }

  /** For every run: the release enters the queue from APPROVED only, exactly if no accepted queueing finds
      it stored in a state other than APPROVED and QUEUED_FOR_DOWNLOAD. */
  lemma QueuedFromApproved(events: seq<Event>, id: Id)
    ensures FromApproved(Past(Run(EMPTY_WORLD, events), id))
       <==> (forall k :: 0 <= k < |events| ==> !Misqueues(Run(EMPTY_WORLD, events[..k]), events[k], id))
  {
    assert FromApproved(Past(EMPTY_WORLD, id));
    hide *;
    RunFromApproved(EMPTY_WORLD, events, id);
    ThroughoutMeans(EMPTY_WORLD, events, (v, e) => !Misqueues(v, e, id));
  }
}
