/** The retention pass on the stored releases of the workflow: it is a run of deletions. */
module WorkflowRetention {
  import opened Collections
  import opened Workflow
  import opened Retention

  /** The stored releases as the pass selects them, with the time at which each was created. */
  function TableOf(w: World, created: Id -> Seconds): set<Row> {
    set id | id in w.rows :: RowOf(id, w.rows[id], created)
  }

  function RowOf(id: Id, r: Release, created: Id -> Seconds): Row {
    Row(id, r.software, r.state, created(id), r.version)
  }

  function DoomedIds(w: World, created: Id -> Seconds, software: set<nat>, p: Policy, now: Seconds): set<Id> {
    set r | r in Doomed(TableOf(w, created), software, p, now) :: r.id
  }

  /** A release is deleted with its override records; its history is over, and copies of it stay behind. */
  function Without(w: World, ids: set<Id>): World {
    w.(rows := w.rows - ids, overrides := w.overrides - ids)
  }

  function AfterRetention(w: World, created: Id -> Seconds, software: set<nat>, p: Policy, now: Seconds): World {
    Without(w, DoomedIds(w, created, software, p, now))
  }

  lemma InTable(w: World, created: Id -> Seconds, r: Row)
    ensures r in TableOf(w, created) <==> r.id in w.rows && r == RowOf(r.id, w.rows[r.id], created)
  {
    if r.id in w.rows && r == RowOf(r.id, w.rows[r.id], created) {
      var id := r.id;
      assert RowOf(id, w.rows[id], created) in TableOf(w, created);
    }
  }

  lemma TableIsKeyed(w: World, created: Id -> Seconds)
    ensures Keyed(TableOf(w, created))
  {
  }

  /** What ReleaseTable.RetentionPass does to the table, this does to the stored releases. */
  lemma RetentionOnTable(w: World, created: Id -> Seconds, software: set<nat>, p: Policy, now: Seconds)
    ensures TableOf(AfterRetention(w, created, software, p, now), created)
         == After(TableOf(w, created), software, p, now)
  {
    var rows, doomed := TableOf(w, created), Doomed(TableOf(w, created), software, p, now);
    var ids := DoomedIds(w, created, software, p, now);
    TableIsKeyed(w, created);
    assert doomed <= rows;
    hide Doomed, TableOf;
    forall r
      ensures r in TableOf(Without(w, ids), created) <==> r in rows - doomed
    {
      InTable(w, created, r);
      InTable(Without(w, ids), created, r);
      if r in rows && r.id in ids {
        var d :| d in doomed && d.id == r.id;
        assert d == r;
      }
    }
  }

  /** Which stored releases a pass leaves, in the terms of the releases: those that are not downloaded go
      over age, and a downloaded one with enough newer ones of its entry. */
  lemma RetentionOnReleases(w: World, created: Id -> Seconds, software: set<nat>, p: Policy, now: Seconds, id: Id)
    requires id in w.rows
    ensures var v, r := AfterRetention(w, created, software, p, now), w.rows[id];
            && (id in v.rows ==> v.rows[id] == r)
            && (r.state != Downloaded ==>
                  (id !in v.rows <==>
                     || (r.state == Discovered && created(id) + p.discoveredDays * 86400 < now)
                     || (r.state == Rejected && p.rejectedEnabled && created(id) + p.rejectedDays * 86400 < now)))
            && (r.state == Downloaded ==>
                  (id !in v.rows <==>
                     && p.keep > 0 && r.software in software
                     && |NewerDownloads(w, created, id)| >= p.keep))
  {
    var rows, row := TableOf(w, created), RowOf(id, w.rows[id], created);
    var v := AfterRetention(w, created, software, p, now);
    InTable(w, created, row);
    InTable(v, created, row);
    RetentionOnTable(w, created, software, p, now);
    if row.state != Downloaded {
      hide After, TableOf, AfterRetention;
      OthersAreKept(rows, software, p, now, row);
    } else {
      DownloadGoes(rows, software, p, now, row);
      NewerOnTable(w, created, id);
      hide After, TableOf, AfterRetention, NewerDownloads;
    }
    Unchanged(w, created, software, p, now, id);
  }

  lemma Unchanged(w: World, created: Id -> Seconds, software: set<nat>, p: Policy, now: Seconds, id: Id)
    ensures var v := AfterRetention(w, created, software, p, now);
            id in v.rows ==> id in w.rows && v.rows[id] == w.rows[id]
  {
    hide DoomedIds;
  }

  /** The downloaded releases of the same entry that were created later, or at the same time with a smaller id. */
  function NewerDownloads(w: World, created: Id -> Seconds, id: Id): set<Id>
    requires id in w.rows
  {
    set x | x in w.rows && w.rows[x].software == w.rows[id].software && w.rows[x].state == Downloaded
            && (created(x) > created(id) || (created(x) == created(id) && x < id))
  }

  lemma NewerOnTable(w: World, created: Id -> Seconds, id: Id)
    requires id in w.rows && w.rows[id].state == Downloaded
    ensures var r := RowOf(id, w.rows[id], created);
            var newer := set x | x in TableOf(w, created) && x.software == r.software && x.state == Downloaded
                                 && (x.created > r.created || (x.created == r.created && x.id < r.id));
            |newer| == |NewerDownloads(w, created, id)|
  {
    var r := RowOf(id, w.rows[id], created);
    var newer := set x | x in TableOf(w, created) && x.software == r.software && x.state == Downloaded
                         && (x.created > r.created || (x.created == r.created && x.id < r.id));
    forall x
      ensures x in newer ==> x.id in NewerDownloads(w, created, id) && x == RowOf(x.id, w.rows[x.id], created)
    {
      InTable(w, created, x);
    }
    forall k | k in NewerDownloads(w, created, id)
      ensures RowOf(k, w.rows[k], created) in newer
    {
      InTable(w, created, RowOf(k, w.rows[k], created));
    }
    assert NewerDownloads(w, created, id) == set x | x in newer :: x.id;
    SameNumber(newer);
  }

  lemma {:induction false} SameNumber(rows: set<Row>)
    requires Keyed(rows)
    ensures |rows| == |set x | x in rows :: x.id|
    decreases |rows|
  {
    var ids := set x | x in rows :: x.id;
    if rows == {} {
      assert ids == {};
    } else {
      var r :| r in rows;
      SameNumber(rows - {r});
      assert ids == (set x | x in rows - {r} :: x.id) + {r.id};
      assert r.id !in set x | x in rows - {r} :: x.id;
    }
  }

  function Deletes(ids: seq<Id>): seq<Event> {
    if ids == [] then [] else [Delete(ids[0])] + Deletes(ids[1..])
  }

  /** Deletions may come in any order, and deleting twice does no harm. */
  lemma {:induction false} DeletesRemove(w: World, ids: seq<Id>)
    ensures Run(w, Deletes(ids)) == Without(w, Members(ids))
    decreases |ids|
  {
    if ids == [] {
      assert w.rows - Members(ids) == w.rows && w.overrides - Members(ids) == w.overrides;
    } else {
      var first, rest := Delete(ids[0]), Members(ids[1..]);
      assert Deletes(ids)[1..] == Deletes(ids[1..]);
      assert Members(ids) == {ids[0]} + rest;
      DeletesRemove(Step(w, first), ids[1..]);
      assert Step(w, first) == Without(w, {ids[0]});
      assert (w.rows - {ids[0]}) - rest == w.rows - ({ids[0]} + rest);
      assert (w.overrides - {ids[0]}) - rest == w.overrides - ({ids[0]} + rest);
      hide Step;
    }
  }

  lemma {:induction false} Listed(ids: set<Id>) returns (list: seq<Id>)
    ensures Members(list) == ids
    decreases |ids|
  {
    list := [];
    if ids != {} {
      var id :| id in ids;
      var rest := Listed(ids - {id});
      list := [id] + rest;
      assert ids == {id} + Members(rest);
    }
  }

  /** The pass is the run that deletes the doomed releases, in whatever order. */
  lemma RetentionIsDeletes(
      w: World, created: Id -> Seconds, software: set<nat>, p: Policy, now: Seconds, ids: seq<Id>)
    requires Members(ids) == DoomedIds(w, created, software, p, now)
    ensures Run(w, Deletes(ids)) == AfterRetention(w, created, software, p, now)
  {
    DeletesRemove(w, ids);
  }
}
