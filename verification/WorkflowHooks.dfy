/** Callbacks from the download clients: which release they speak of, and what becomes of it. */
module WorkflowHooks {
  import opened Collections
  import opened Results
  import opened Text
  import opened Workflow
  import opened WorkflowService

  /** What a callback says; an id that cannot be read is None. The torrent client's callbacks carry the
      prefixed hash as their job and are not matched by name. */
  datatype Payload = Payload(releaseId: Option<Id>, job: string, name: string, status: string)

  const QBIT_HASH_PREFIX := "qbt:"

  function TorrentPayload(releaseId: Option<Id>, hash: string, status: string): Payload {
    Payload(releaseId, if hash == "" then "" else QBIT_HASH_PREFIX + hash, "", status)
  }

  function HoldingJob(rows: map<Id, Release>, job: string): set<Id> {
    set id | id in rows && rows[id].job == Some(job)
  }

  predicate Named(r: Release, name: string) {
    r.state == Queued && Contains(Lower(r.name), Lower(name))
  }

  /** The first queued release, in the order of the query, whose name contains the callback's. */
  function FirstNamed(rows: map<Id, Release>, order: seq<Id>, name: string): Option<Id> {
    if order == [] then None
    else if order[0] in rows && Named(rows[order[0]], name) then Some(order[0])
    else FirstNamed(rows, order[1..], name)
  }

  /** By id, else by job, else by name; a job that several releases hold raises. */
  ghost function Match(rows: map<Id, Release>, p: Payload, order: seq<Id>): Result<Option<Id>> {
    if p.releaseId.Some? && p.releaseId.value in rows then Success(p.releaseId)
    else if p.job != "" && |HoldingJob(rows, p.job)| > 1 then Failure("MultipleResultsFound")
    else if p.job != "" && |HoldingJob(rows, p.job)| == 1 then Success(Some(Only(HoldingJob(rows, p.job))))
    else if p.name != "" then Success(FirstNamed(rows, order, p.name))
    else Success(None)
  }

  lemma {:induction false} FirstNamedMeans(rows: map<Id, Release>, order: seq<Id>, name: string)
    ensures var found := FirstNamed(rows, order, name);
            && (found.Some? ==> found.value in rows && Named(rows[found.value], name))
            && (found.None? <==> forall id :: id in order && id in rows ==> !Named(rows[id], name))
    decreases |order|
  {
    if order != [] {
      FirstNamedMeans(rows, order[1..], name);
      assert forall id :: id in order <==> id == order[0] || id in order[1..];
    }
  }

  /** A queued release in whose name the given name occurs, in any case of letters. */
  predicate QueuedAs(rows: map<Id, Release>, id: Id, name: string) {
    id in rows && rows[id].state == Queued && Occurs(rows[id].name, name)
  }

  lemma NamedMeans(rows: map<Id, Release>, id: Id, name: string)
    ensures id in rows && Named(rows[id], name) <==> QueuedAs(rows, id, name)
  {
    if id in rows {
      ContainsIgnoresCase(rows[id].name, name);
    }
  }

  /** The lookup by name takes the first release of the query that fits. */
  lemma {:induction false} FirstOfName(rows: map<Id, Release>, order: seq<Id>, name: string)
    ensures FirstNamed(rows, order, name).None? <==>
              forall i :: 0 <= i < |order| ==> !QueuedAs(rows, order[i], name)
    ensures forall i :: 0 <= i < |order| && QueuedAs(rows, order[i], name)
                        && (forall j :: 0 <= j < i ==> !QueuedAs(rows, order[j], name))
              ==> FirstNamed(rows, order, name) == Some(order[i])
    decreases |order|
  {
    hide Named, QueuedAs;
    if order != [] {
      NamedMeans(rows, order[0], name);
      FirstOfName(rows, order[1..], name);
      assert forall i :: 0 < i < |order| ==> order[i] == order[1..][i - 1];
    }
  }

  lemma HoldingMeans(rows: map<Id, Release>, job: string, id: Id)
    ensures HoldingJob(rows, job) == {id} <==> HoldsAlone(rows, job, id)
    ensures HoldingJob(rows, job) == {} <==> forall other :: other in rows ==> rows[other].job != Some(job)
  {
    var holding := HoldingJob(rows, job);
    assert forall x :: x in holding <==> x in rows && rows[x].job == Some(job);
    hide HoldingJob;
    assert holding == {id} ==> id in holding && forall x :: x in holding ==> x == id;
    if HoldsAlone(rows, job, id) {
      assert id in holding && forall x :: x in holding ==> x == id;
    }
    if forall other :: other in rows ==> rows[other].job != Some(job) {
      assert forall x :: x !in holding;
    }
  }

  /** The only release that holds the job. */
  predicate HoldsAlone(rows: map<Id, Release>, job: string, id: Id) {
    && id in rows && rows[id].job == Some(job)
    && forall other :: other in rows && rows[other].job == Some(job) ==> other == id
  }

  predicate Shared(rows: map<Id, Release>, job: string) {
    exists a, b :: a in rows && b in rows && a != b && rows[a].job == Some(job) && rows[b].job == Some(job)
  }

  lemma SharedMeans(rows: map<Id, Release>, job: string)
    ensures Shared(rows, job) <==> |HoldingJob(rows, job)| > 1
  {
    var holding := HoldingJob(rows, job);
    if |holding| > 1 {
      var a :| a in holding;
      assert |holding - {a}| > 0;
      var b :| b in holding - {a};
    } else if a, b :| a in rows && b in rows && a != b && rows[a].job == Some(job) && rows[b].job == Some(job) {
      SubsetSize({a, b}, holding);
    }
  }

  /** The release that a callback finds is stored, and it is the one of its id, or the only one of its job,
      or a queued one of its name; nothing is found exactly if there is none of these. */
  lemma MatchMeans(rows: map<Id, Release>, p: Payload, order: seq<Id>)
    requires Members(order) == rows.Keys
    ensures var m := Match(rows, p, order);
            var byId := p.releaseId.Some? && p.releaseId.value in rows;
            && (m.Success? && m.value.Some? ==>
                  var id := m.value.value;
                  id in rows && (p.releaseId == Some(id) || HoldsAlone(rows, p.job, id) || QueuedAs(rows, id, p.name)))
            && (byId ==> m == Success(p.releaseId))
            && (m.Failure? <==> !byId && p.job != "" && Shared(rows, p.job))
            && (m == Success(None) <==>
                  && !byId
                  && (p.job == "" || forall id :: id in rows ==> rows[id].job != Some(p.job))
                  && (p.name == "" || forall id :: id in rows ==> !QueuedAs(rows, id, p.name)))
  {
    FirstNamedMeans(rows, order, p.name);
    assert forall id :: id in order <==> id in Members(order);
    forall id: Id
      ensures id in rows && Named(rows[id], p.name) <==> QueuedAs(rows, id, p.name)
      ensures HoldingJob(rows, p.job) == {id} <==> HoldsAlone(rows, p.job, id)
    {
      NamedMeans(rows, id, p.name);
      HoldingMeans(rows, p.job, id);
    }
    HoldingMeans(rows, p.job, 0);
    SharedMeans(rows, p.job);
    hide Named, QueuedAs, HoldingJob, HoldsAlone, Shared;
  }

  /** A callback that names no id and carries the job of one release alone finds that release, whatever
      the names and the states of the others. */
  lemma JobDecides(rows: map<Id, Release>, p: Payload, order: seq<Id>, id: Id)
    requires p.releaseId == None && p.job != "" && HoldsAlone(rows, p.job, id)
    ensures Match(rows, p, order) == Success(Some(id))
  {
    HoldingMeans(rows, p.job, id);
    assert |HoldingJob(rows, p.job)| == 1;
    assert Only(HoldingJob(rows, p.job)) in {id};
  }

  /** The torrent client's callbacks find a release by id or by the hash it was sent with, never by name. */
  lemma TorrentMatches(rows: map<Id, Release>, releaseId: Option<Id>, hash: string, status: string, order: seq<Id>)
    ensures var m := Match(rows, TorrentPayload(releaseId, hash, status), order);
            && (m.Success? && m.value.Some? ==>
                  || releaseId == m.value
                  || (hash != "" && HoldsAlone(rows, "qbt:" + hash, m.value.value)))
            && (m == Success(None) <==>
                  && !(releaseId.Some? && releaseId.value in rows)
                  && (hash == "" || forall id :: id in rows ==> rows[id].job != Some("qbt:" + hash)))
  {
    var job := QBIT_HASH_PREFIX + hash;
    assert job != "" && job[0] == 'q';
    HoldingMeans(rows, job, 0);
    forall id: Id
      ensures HoldingJob(rows, job) == {id} <==> HoldsAlone(rows, job, id)
    {
      HoldingMeans(rows, job, id);
    }
    hide HoldingJob, HoldsAlone;
  }

  // ----- the lookup, step by step -----

  /** The session loads several releases one after the other. */
  function AfterLoads(w: World, s: Session, ids: seq<Id>): World
    decreases |ids|
  {
    if ids == [] then w else AfterLoads(Loaded(w, s, ids[0]), s, ids[1..])
  }

  lemma {:induction false} LoadsAppend(w: World, s: Session, ids: seq<Id>, id: Id)
    ensures AfterLoads(w, s, ids + [id]) == Loaded(AfterLoads(w, s, ids), s, id)
    decreases |ids|
  {
    hide Loaded;
    if ids == [] {
      assert [] + [id] == [id] && [id][1..] == [];
      assert AfterLoads(w, s, [id]) == AfterLoads(Loaded(w, s, id), s, []);
    } else {
      assert (ids + [id])[0] == ids[0] && (ids + [id])[1..] == ids[1..] + [id];
      LoadsAppend(Loaded(w, s, ids[0]), s, ids[1..], id);
    }
  }

  method FindRelease(service: ReleaseService, s: Session, p: Payload, order: seq<Id>)
    returns (found: Result<Option<Id>>, ghost loaded: seq<Id>)
    requires service.Valid() && Members(order) == service.rows.Keys
    modifies service
    ensures service.Valid() && service.W() == AfterLoads(old(service.W()), s, loaded)
    ensures service.rows == old(service.rows) && service.past == old(service.past)
    ensures found == Match(service.rows, p, order)
  {
    loaded := [];
    hide Loaded;
    if p.releaseId.Some? {
      LoadsAppend(service.W(), s, [], p.releaseId.value);
      loaded := [] + [p.releaseId.value];
      var r := service.GetReleaseById(s, p.releaseId.value);
      if r.Some? {
        return Success(p.releaseId), loaded;
      }
    }
    if p.job != "" {
      var holding := HoldingJob(service.rows, p.job);
      if |holding| > 1 {
        return Failure("MultipleResultsFound"), loaded;
      }
      if |holding| == 1 {
        var id :| id in holding;
        assert id == Only(holding);
        LoadsAppend(old(service.W()), s, loaded, id);
        var _ := service.GetReleaseById(s, id);
        return Success(Some(id)), loaded + [id];
      }
    }
    if p.name == "" {
      return Success(None), loaded;
    }
    loaded := LoadQueued(service, s, order, old(service.W()), loaded);
    var first := FindNamed(service, order, p.name);
    found := Success(first);
  }

  /** The query for the queued releases, which leaves them loaded. */
  method LoadQueued(service: ReleaseService, s: Session, order: seq<Id>, ghost start: World, ghost before: seq<Id>)
    returns (ghost loaded: seq<Id>)
    requires service.Valid() && service.W() == AfterLoads(start, s, before)
    modifies service
    ensures service.Valid() && service.W() == AfterLoads(start, s, loaded)
    ensures service.rows == old(service.rows) && service.past == old(service.past)
  {
    loaded := before;
    hide *;
    for i := 0 to |order|
      invariant service.Valid() && service.W() == AfterLoads(start, s, loaded)
      invariant service.rows == old(service.rows) && service.past == old(service.past)
    {
      if order[i] in service.rows && service.rows[order[i]].state == Queued {
        LoadsAppend(start, s, loaded, order[i]);
        var _ := service.GetReleaseById(s, order[i]);
        loaded := loaded + [order[i]];
      }
    }
  }

  method FindNamed(service: ReleaseService, order: seq<Id>, name: string) returns (first: Option<Id>)
    ensures first == FirstNamed(service.rows, order, name)
  {
    assert order[0..] == order;
    for i := 0 to |order|
      invariant FirstNamed(service.rows, order[i..], name) == FirstNamed(service.rows, order, name)
    {
      assert order[i..][0] == order[i] && order[i..][1..] == order[i + 1..];
      if order[i] in service.rows && Named(service.rows[order[i]], name) {
        return Some(order[i]);
      }
    }
    first := None;
  }

  /** The endpoint: statuses that say nothing about completion are ignored before anything is looked up. */
  method HandleHook(service: ReleaseService, s: Session, p: Payload, order: seq<Id>, user: string)
    returns (reply: Result<Reply>, ghost loaded: seq<Id>)
    requires service.Valid() && Members(order) == service.rows.Keys
    modifies service
    ensures service.Valid()
    ensures reply == Success(Ignored) <==> !Completes(p.status)
    ensures reply.Failure? <==> Completes(p.status) && Match(old(service.rows), p, order).Failure?
    ensures reply == Success(Unmatched) <==> Completes(p.status) && Match(old(service.rows), p, order) == Success(None)
    ensures var m := Match(old(service.rows), p, order);
            service.W() == if Completes(p.status) && m.Success? && m.value.Some?
                           then AfterHook(AfterLoads(old(service.W()), s, loaded), s, m.value.value,
                                          SaysDone(p.status), user)
                           else AfterLoads(old(service.W()), s, loaded)
  {
    if !Completes(p.status) {
      return Success(Ignored), [];
    }
    var found;
    MatchMeans(service.rows, p, order);
    found, loaded := FindRelease(service, s, p, order);
    hide Match, AfterLoads, AfterHook, Loaded;
    if found.Failure? {
      return Failure(found.error), loaded;
    }
    var r := service.ReceiveHook(s, found.value, p.status, user);
    reply := Success(r);
  }

  predicate Completes(status: string) {
    SaysDone(status) || SaysFailed(status)
  }
}
