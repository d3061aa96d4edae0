/** The release workflow: the transition table, the stored releases, the sessions
    that read and write them, and one step for every committed operation.

    A database session keeps the first copy of a row that it reads and goes on
    working from that copy until it refreshes it. A commit is therefore checked
    against what the session holds, not against what is stored. */
module Workflow {
  import opened Results

  type Id = nat
  type Session = nat

  datatype State =
    | Discovered
    | Staged
    | UnderReview
    | Approved
    | Rejected
    | Queued
    | Downloaded
    | DownloadFailed

  datatype Trust = Unverified | DeveloperVerified | AdminVerified

  datatype Flag = NoFlag | Warning | Restricted | Blocked

  datatype Release = Release(
    software: nat,
    name: string,
    version: string,
    state: State,
    trust: Trust,
    flag: Flag,
    job: Option<string>,
    changedBy: string)

  /** The states that the transition table lets a release move to. */
  function Allowed(s: State): set<State> {
    match s
    case Discovered => {Staged, Rejected}
    case Staged => {UnderReview, Rejected, Discovered}
    case UnderReview => {Approved, Rejected, Staged}
    case Approved => {Queued, Rejected}
    case Rejected => {Staged}
    case Queued => {Downloaded, DownloadFailed, Approved}
    case Downloaded => {}
    case DownloadFailed => {Approved}
  }

  /** The table read the other way: the states from which a release may move to a state. */
  function Sources(target: State): set<State> {
    match target
    case Discovered => {Staged}
    case Staged => {Discovered, UnderReview, Rejected}
    case UnderReview => {Staged}
    case Approved => {UnderReview, Queued, DownloadFailed}
    case Rejected => {Discovered, Staged, UnderReview, Approved}
    case Queued => {Approved}
    case Downloaded => {Queued}
    case DownloadFailed => {Queued}
  }

  lemma SourcesMean(s: State, target: State)
    ensures s in Sources(target) <==> target in Allowed(s)
  {
  }

  /** Where a finished download takes its release. */
  function Outcome(success: bool): State {
    if success then Downloaded else DownloadFailed
  }

  // ----- histories of one release -----

  /** What made a commit write the state: a plain transition, a download callback
      (webhook or poller), or an override, which does not consult the table. */
  datatype Cause = ByTable | ByCompletion | ByOverride

  /** One committed change of state: what was stored, what the session held, what was written. */
  datatype Commit = Commit(before: State, seen: State, after: State, cause: Cause)

  function Current(past: seq<Commit>): State {
    if past == [] then Discovered else past[|past| - 1].after
  }

  /** The release was in state `s` at some point of its history; every release starts as Discovered. */
  ghost predicate WasIn(past: seq<Commit>, s: State) {
    s == Discovered || exists i :: 0 <= i < |past| && past[i].after == s
  }

  ghost predicate WasApproved(past: seq<Commit>) {
    exists i :: 0 <= i < |past| && past[i].after == Approved
  }

  ghost predicate Chained(past: seq<Commit>) {
    forall i :: 0 <= i < |past| ==> past[i].before == Current(past[..i])
  }

  /** The commit obeyed the table from the state its session held, and that was a state the release had been in. */
  ghost predicate Justified(past: seq<Commit>, c: Commit) {
    && WasIn(past, c.seen)
    && (c.cause == ByOverride ==> c.after == Approved || (c.seen == Approved && c.after == c.before))
    && (c.cause != ByOverride ==> c.after in Allowed(c.seen))
    && (c.cause == ByCompletion ==> c.after == Downloaded || c.after == DownloadFailed)
  }

  ghost predicate LegalHistory(past: seq<Commit>) {
    && Chained(past)
    && forall i :: 0 <= i < |past| ==> Justified(past[..i], past[i])
  }

  // ----- the whole system -----

  /** What a session still has to do for the operation it is in the middle of. */
  datatype Task =
    | OweVerify(id: Id)
    | OweAudit(id: Id, success: bool, user: string)
    | Sending(id: Id)

  datatype Audit = Audit(success: bool, id: Id, user: string)

  datatype OverrideRecord = OverrideRecord(user: string, reason: Option<string>)

  datatype World = World(
    rows: map<Id, Release>,
    past: map<Id, seq<Commit>>,
    audit: seq<Audit>,
    overrides: map<Id, seq<OverrideRecord>>,
    held: map<(Session, Id), Release>,
    tasks: map<Session, Task>)

  const EMPTY_WORLD := World(map[], map[], [], map[], map[], map[])

  datatype Event =
    /** A new release is stored as Discovered and stays loaded in the session that stored it. */
    | Insert(s: Session, id: Id, release: Release)
    /** The two commits of the analysis: its flag, then the trust level. */
    | Assess(s: Session, id: Id, flag: Flag)
    | Judge(s: Session, id: Id, developer: bool)
    | Load(s: Session, id: Id)
    | Refresh(s: Session, id: Id)
    | Forget(s: Session, id: Id)
    /** The commit of a plain transition. */
    | Move(s: Session, id: Id, target: State, user: string)
    /** The two commits of an approval. */
    | Approve(s: Session, id: Id, user: string)
    | Verify(s: Session)
    | Override(s: Session, id: Id, user: string, reason: Option<string>)
    /** The two commits of a download callback. */
    | Complete(s: Session, id: Id, success: bool, user: string)
    | LogCompletion(s: Session)
    /** The steps of a send: check for approval, store the client's job, queue. */
    | BeginSend(s: Session, id: Id)
    | StoreJob(s: Session, job: string)
    | Enqueue(s: Session, user: string)
    | Delete(id: Id)
    /** Audit retention drops the oldest rows. */
    | PruneAudit(count: nat)

  /** The session holds the release, the table allows the target, and the row still exists. */
  predicate CanMove(w: World, s: Session, id: Id, target: State) {
    && (s, id) in w.held
    && id in w.rows
    && id in w.past
    && target in Allowed(w.held[(s, id)].state)
  }

  /** What a commit leaves in a column: a session only writes the values that differ from its copy's. */
  function Written<T(==)>(stored: T, seen: T, value: T): T {
    if seen == value then stored else value
  }

  function WriteState(w: World, s: Session, id: Id, target: State, user: string, cause: Cause): World
    requires (s, id) in w.held && id in w.rows && id in w.past
  {
    var stored, seen := w.rows[id], w.held[(s, id)];
    var state := Written(stored.state, seen.state, target);
    w.(rows := w.rows[id := stored.(state := state, changedBy := Written(stored.changedBy, seen.changedBy, user))],
       held := w.held[(s, id) := seen.(state := target, changedBy := user)],
       past := w.past[id := w.past[id] + [Commit(stored.state, seen.state, state, cause)]])
  }

  function WriteTrustLevel(w: World, s: Session, id: Id, trust: Trust): World
    requires (s, id) in w.held && id in w.rows
  {
    var stored, seen := w.rows[id], w.held[(s, id)];
    w.(rows := w.rows[id := stored.(trust := Written(stored.trust, seen.trust, trust))],
       held := w.held[(s, id) := seen.(trust := trust)])
  }

  function WriteTrust(w: World, s: Session, id: Id): World
    requires (s, id) in w.held && id in w.rows
  {
    WriteTrustLevel(w, s, id, AdminVerified)
  }

  function EndTask(w: World, s: Session): World {
    w.(tasks := w.tasks - {s})
  }

  function SetTask(w: World, s: Session, task: Task): World {
    w.(tasks := w.tasks[s := task])
  }

  predicate OverrideAccepted(w: World, s: Session, id: Id, reason: Option<string>) {
    && (s, id) in w.held
    && id in w.rows
    && id in w.past
    && (w.held[(s, id)].flag in {Restricted, Blocked} ==> reason.Some? && reason.value != "")
  }

  function OverridesOf(w: World, id: Id): seq<OverrideRecord> {
    if id in w.overrides then w.overrides[id] else []
  }

  /** The record of an override, which is committed with it. */
  function NoteOverride(w: World, id: Id, user: string, reason: Option<string>): World {
    w.(overrides := w.overrides[id := OverridesOf(w, id) + [OverrideRecord(user, reason)]])
  }

  /** The effect of one committed operation. An operation that raises changes nothing. */
  function Step(w: World, e: Event): World {
    match e
    case Insert(s, id, release) =>
      if id in w.past then w
      else
        var r := release.(state := Discovered, trust := Unverified, job := None);
        w.(rows := w.rows[id := r], past := w.past[id := []], held := w.held[(s, id) := r])
    case Assess(s, id, flag) =>
      if (s, id) in w.held && id in w.rows then
        var stored, seen := w.rows[id], w.held[(s, id)];
        w.(rows := w.rows[id := stored.(flag := Written(stored.flag, seen.flag, flag))],
           held := w.held[(s, id) := seen.(flag := flag)])
      else w
    case Judge(s, id, developer) =>
      if (s, id) in w.held && id in w.rows then
        WriteTrustLevel(w, s, id, if developer then DeveloperVerified else Unverified)
      else w
    case Load(s, id) =>
      if id in w.rows && (s, id) !in w.held then w.(held := w.held[(s, id) := w.rows[id]]) else w
    case Refresh(s, id) =>
      if id in w.rows && (s, id) in w.held then w.(held := w.held[(s, id) := w.rows[id]]) else w
    case Forget(s, id) =>
      w.(held := w.held - {(s, id)})
    case Move(s, id, target, user) =>
      if CanMove(w, s, id, target) then WriteState(w, s, id, target, user, ByTable) else w
    case Approve(s, id, user) =>
      if CanMove(w, s, id, Approved) then
        SetTask(WriteState(w, s, id, Approved, user, ByTable), s, OweVerify(id))
      else w
    case Verify(s) =>
      if s in w.tasks && w.tasks[s].OweVerify? && (s, w.tasks[s].id) in w.held && w.tasks[s].id in w.rows then
        EndTask(WriteTrust(w, s, w.tasks[s].id), s)
      else w
    case Override(s, id, user, reason) =>
      if OverrideAccepted(w, s, id, reason) then
        NoteOverride(WriteTrust(WriteState(w, s, id, Approved, user, ByOverride), s, id), id, user, reason)
      else w
    case Complete(s, id, success, user) =>
      if CanMove(w, s, id, Outcome(success)) then
        SetTask(WriteState(w, s, id, Outcome(success), user, ByCompletion), s, OweAudit(id, success, user))
      else w
    case LogCompletion(s) =>
      if s in w.tasks && w.tasks[s].OweAudit? then
        EndTask(w.(audit := w.audit + [Audit(w.tasks[s].success, w.tasks[s].id, w.tasks[s].user)]), s)
      else w
    case BeginSend(s, id) =>
      if (s, id) in w.held && id in w.rows && w.held[(s, id)].state == Approved then SetTask(w, s, Sending(id)) else w
    case StoreJob(s, job) =>
      if s in w.tasks && w.tasks[s].Sending? && w.tasks[s].id in w.rows then
        w.(rows := w.rows[w.tasks[s].id := w.rows[w.tasks[s].id].(job := Some(job))])
      else w
    case Enqueue(s, user) =>
      if s in w.tasks && w.tasks[s].Sending? && CanMove(w, s, w.tasks[s].id, Queued) then
        EndTask(WriteState(w, s, w.tasks[s].id, Queued, user, ByTable), s)
      else w
    case Delete(id) =>
      w.(rows := w.rows - {id}, overrides := w.overrides - {id})
    case PruneAudit(count) =>
      w.(audit := if count <= |w.audit| then w.audit[count..] else [])
  }

  /** Any interleaving of the steps of any number of sessions. */
  function Run(w: World, events: seq<Event>): World
    decreases |events|
  {
    if events == [] then w else Run(Step(w, events[0]), events[1..])
  }
}
