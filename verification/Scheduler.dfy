/** One scheduler pass over the results found for one software entry, as it goes when no other
    actor commits to the releases that it is storing. SchedulerRuns says what others can change. */
module Scheduler {
  import opened Collections
  import opened Results
  import opened Workflow
  import opened WorkflowService

  /** A search result with what the analysis, the rules and the threshold will say of it. */
  datatype Found = Found(
    id: Id,
    name: string,
    version: string,
    flag: Flag,
    developer: bool,
    rejected: bool,
    confident: bool)

  function Holding(rows: map<Id, Release>, software: nat, version: string): set<Id> {
    set id | id in rows && rows[id].software == software && rows[id].version == version
  }

  /** Exactly one release of the software is stored with that version. */
  predicate StoredOnce(rows: map<Id, Release>, software: nat, version: string) {
    exists id :: id in rows && IsOnly(rows, id, software, version)
  }

  predicate IsOnly(rows: map<Id, Release>, id: Id, software: nat, version: string) {
    forall other :: other in rows ==>
      (rows[other].software == software && rows[other].version == version <==> other == id)
  }

  /** Two releases of the software share the version. */
  predicate StoredTwice(rows: map<Id, Release>, software: nat, version: string) {
    exists a, b :: a in rows && b in rows && a != b
                   && rows[a].software == rows[b].software == software
                   && rows[a].version == rows[b].version == version
  }

  lemma HoldingMeans(rows: map<Id, Release>, software: nat, version: string)
    ensures |Holding(rows, software, version)| == 1 <==> StoredOnce(rows, software, version)
    ensures |Holding(rows, software, version)| > 1 <==> StoredTwice(rows, software, version)
    ensures forall id :: id in rows ==>
              (Holding(rows, software, version) == {id} <==> IsOnly(rows, id, software, version))
  {
    var holding := Holding(rows, software, version);
    assert forall id :: id in holding <==>
                          id in rows && rows[id].software == software && rows[id].version == version;
    hide Holding;
    forall id | id in rows
      ensures holding == {id} <==> IsOnly(rows, id, software, version)
    {
      assert IsOnly(rows, id, software, version) ==> id in holding && forall x :: x in holding ==> x == id;
      assert holding == {id} ==> id in holding && forall x :: x in holding ==> x == id;
    }
    if |holding| == 1 {
      var id := Only(holding);
      assert holding == {id} && id in holding;
    } else if |holding| > 1 {
      var a :| a in holding;
      assert |holding - {a}| > 0;
      var b :| b in holding - {a};
    }
    if a, b :| a in rows && b in rows && a != b && rows[a].software == rows[b].software == software
               && rows[a].version == rows[b].version == version {
      SubsetSize({a, b}, holding);
    }
  }

  /** From index `from` on, the results carry ids that were never used, all different. */
  ghost predicate FreshIds(past: map<Id, seq<Commit>>, found: seq<Found>, from: nat) {
    && (forall i :: from <= i < |found| ==> found[i].id !in past)
    && (forall i, j :: from <= i < j < |found| ==> found[i].id != found[j].id)
  }

  ghost predicate OneEach(rows: map<Id, Release>, software: nat, found: seq<Found>) {
    forall i :: 0 <= i < |found| ==> |Holding(rows, software, found[i].version)| == 1
  }

  function NewRelease(software: nat, item: Found): Release {
    Release(software, item.name, item.version, Discovered, Unverified, NoFlag, None, "")
  }

  /** What is stored of a result in the end. */
  function StoredRow(software: nat, item: Found): Release {
    Release(software, item.name, item.version,
            if item.rejected then Rejected else Discovered,
            if item.developer then DeveloperVerified else Unverified,
            item.flag, None, if item.rejected then "rules:auto" else "")
  }

  lemma RowOfResult(software: nat, item: Found)
    ensures var analysed := StoredRow(software, item.(rejected := false));
            StoredRow(software, item)
            == if item.rejected then Stored(analysed, analysed, Rejected, "rules:auto") else analysed
  {
    assert !item.rejected ==> item.(rejected := false) == item;
  }

  lemma WrittenOver<T>(stored: T, value: T)
    ensures Written(stored, stored, value) == value
  {
  }

  /** A new row, the analysis with its refresh, and the trust level: the commits that precede the rules. */
  function AfterAnalysis(w: World, s: Session, software: nat, item: Found): World {
    var stored := Step(Step(w, Insert(s, item.id, NewRelease(software, item))), Refresh(s, item.id));
    var analysed := Step(Step(stored, Assess(s, item.id, item.flag)), Refresh(s, item.id));
    Step(analysed, Judge(s, item.id, item.developer))
  }

  function AfterStore(w: World, s: Session, software: nat, item: Found): World {
    var analysed := AfterAnalysis(w, s, software, item);
    if item.rejected then AfterTransition(analysed, s, item.id, Rejected, "rules:auto") else analysed
  }

  function AfterStoreAndApprove(w: World, s: Session, software: nat, item: Found): World {
    var stored := AfterStore(w, s, software, item);
    if item.confident then AfterApprove(stored, s, item.id, "scheduler") else stored
  }

  /** One result: a version that is stored is only looked up, a new one is stored. */
  ghost function AfterResult(w: World, s: Session, software: nat, item: Found): World
    requires |Holding(w.rows, software, item.version)| <= 1
  {
    var existing := Holding(w.rows, software, item.version);
    if |existing| == 1 then Loaded(w, s, Only(existing)) else AfterStoreAndApprove(w, s, software, item)
  }

  /** The pass up to its end or to the first version that several releases hold. */
  ghost function AfterResults(w: World, s: Session, software: nat, found: seq<Found>): World
    decreases |found|
  {
    if found == [] || |Holding(w.rows, software, found[0].version)| > 1 then w
    else AfterResults(AfterResult(w, s, software, found[0]), s, software, found[1..])
  }

  lemma ResultsStep(w: World, s: Session, software: nat, found: seq<Found>, i: nat)
    requires i < |found|
    ensures AfterResults(w, s, software, found[i..])
         == if |Holding(w.rows, software, found[i].version)| > 1 then w
            else AfterResults(AfterResult(w, s, software, found[i]), s, software, found[i + 1..])
  {
    hide AfterResult, Holding;
    assert found[i..][0] == found[i] && found[i..][1..] == found[i + 1..];
  }

  lemma ResultsEnd(w: World, s: Session, software: nat, found: seq<Found>)
    ensures AfterResults(w, s, software, found[|found|..]) == w
  {
  }

  /** Stores a result as a new release and analyses it. */
  method StoreAnalysed(service: ReleaseService, s: Session, software: nat, item: Found)
    requires service.Valid() && item.id !in service.past
    modifies service
    ensures service.Valid() && service.W() == AfterAnalysis(old(service.W()), s, software, item)
    ensures service.past == old(service.past)[item.id := []]
    ensures item.id in service.rows && (s, item.id) in service.held
    ensures service.held[(s, item.id)].state == service.rows[item.id].state
    ensures JustStored(service.rows[item.id], software, item.version) && service.rows[item.id].state == Discovered
    ensures service.rows == old(service.rows)[item.id := service.rows[item.id]]
    ensures service.rows[item.id] == StoredRow(software, item.(rejected := false))
    ensures service.held[(s, item.id)] == service.rows[item.id]
  {
    var r := NewRelease(software, item);
    NewIsJustStored(r, software, item);
    WrittenOver(NoFlag, item.flag);
    WrittenOver(Unverified, if item.developer then DeveloperVerified else Unverified);
    assert StoredRow(software, item.(rejected := false))
        == r.(flag := item.flag).(trust := if item.developer then DeveloperVerified else Unverified);
    UnfoldAnalysis(service.W(), s, software, item);
    ghost var was := service.rows;
    var id, trust := item.id, if item.developer then DeveloperVerified else Unverified;
    hide *;
    service.InsertRelease(s, id, r);
    service.RefreshCopy(s, id);
    service.StoreAssessment(s, id, item.flag);
    UpdateTwice(was, id, r, r.(flag := item.flag));
    service.RefreshCopy(s, id);
    service.StoreTrust(s, id, item.developer);
    UpdateTwice(was, id, r.(flag := item.flag), r.(flag := item.flag).(trust := trust));
  }

  lemma UpdateTwice(rows: map<Id, Release>, id: Id, first: Release, second: Release)
    ensures rows[id := first][id := second] == rows[id := second]
  {
  }

  lemma NewIsJustStored(r: Release, software: nat, item: Found)
    requires r == NewRelease(software, item)
    ensures r.state == Discovered && r.trust == Unverified && r.job == None
    ensures forall flag, trust :: trust != AdminVerified ==>
              JustStored(r.(flag := flag).(trust := trust), software, item.version)
  {
  }

  lemma UnfoldAnalysis(w: World, s: Session, software: nat, item: Found)
    ensures AfterAnalysis(w, s, software, item)
         == Step(Step(Step(Step(Step(w, Insert(s, item.id, NewRelease(software, item))), Refresh(s, item.id)),
                           Assess(s, item.id, item.flag)), Refresh(s, item.id)), Judge(s, item.id, item.developer))
  {
    hide Step;
  }

  lemma MayReject(w: World, s: Session, id: Id)
    requires id in w.rows && id in w.past && (s, id) in w.held && w.held[(s, id)].state == Discovered
    ensures CanMove(Loaded(w, s, id), s, id, Rejected)
  {
  }

  /** Stores and analyses a result and applies the reject rules. */
  method ProcessAndStore(service: ReleaseService, s: Session, software: nat, item: Found)
    requires service.Valid() && item.id !in service.past
    modifies service
    ensures service.Valid() && service.W() == AfterStore(old(service.W()), s, software, item)
    ensures service.past.Keys == old(service.past.Keys) + {item.id}
    ensures item.id in service.rows && (s, item.id) in service.held
    ensures JustStored(service.rows[item.id], software, item.version)
    ensures service.held[(s, item.id)].state == service.rows[item.id].state
    ensures service.rows == old(service.rows)[item.id := StoredRow(software, item)]
  {
    ghost var was := service.rows;
    RowOfResult(software, item);
    hide StoredRow, Stored, Step, CanMove, Loaded, AfterAnalysis, AfterStore, AfterTransition, AfterStoreAndApprove,
      JustStored;
    UnfoldStore(service.W(), s, software, item);
    StoreAnalysed(service, s, software, item);
    MayReject(service.W(), s, item.id);
    ghost var r := service.rows[item.id];
    RejectedIsJustStored(r, software, item);
    hide *;
    if item.rejected {
      var moved := service.TransitionState(s, item.id, Rejected, "rules:auto");
      UpdateTwice(was, item.id, r, service.rows[item.id]);
    }
  }

  lemma UnfoldStore(w: World, s: Session, software: nat, item: Found)
    ensures AfterStore(w, s, software, item)
         == (var analysed := AfterAnalysis(w, s, software, item);
             if item.rejected then AfterTransition(analysed, s, item.id, Rejected, "rules:auto") else analysed)
    ensures AfterStoreAndApprove(w, s, software, item)
         == (var stored := AfterStore(w, s, software, item);
             if item.confident then AfterApprove(stored, s, item.id, "scheduler") else stored)
  {
    hide AfterAnalysis, AfterTransition, AfterApprove;
  }

  lemma RejectedIsJustStored(r: Release, software: nat, item: Found)
    requires JustStored(r, software, item.version)
    ensures forall user :: JustStored(r.(state := Rejected, changedBy := user), software, item.version)
  {
  }

  /** Stores the result and, if it is confident enough, tries to approve it at once. */
  method StoreAndApprove(service: ReleaseService, s: Session, software: nat, item: Found) returns (approved: bool)
    requires service.Valid() && item.id !in service.past
    modifies service
    ensures service.Valid() && service.W() == AfterStoreAndApprove(old(service.W()), s, software, item)
    ensures service.past.Keys == old(service.past.Keys) + {item.id}
    ensures !approved
    ensures item.id in service.rows && JustStored(service.rows[item.id], software, item.version)
    ensures service.rows == old(service.rows)[item.id := service.rows[item.id]]
  {
    UnfoldStore(service.W(), s, software, item);
    ProcessAndStore(service, s, software, item);
    NotApprovable(service.W(), s, item.id, software, item.version);
    approved := false;
    hide *;
    if item.confident {
      var r := service.ApproveRelease(s, item.id, "scheduler");
      approved := r.Success?;
    }
  }

  lemma NotApprovable(w: World, s: Session, id: Id, software: nat, version: string)
    requires id in w.rows && (s, id) in w.held && JustStored(w.rows[id], software, version)
    requires w.held[(s, id)].state == w.rows[id].state
    ensures !CanMove(Loaded(w, s, id), s, id, Approved)
  {
  }

  predicate JustStored(r: Release, software: nat, version: string) {
    && r.software == software
    && r.version == version
    && (r.state == Discovered || r.state == Rejected)
    && r.trust != AdminVerified
  }

  /** `now` is `before` plus releases just stored, each the first of its version. */
  ghost predicate Extends(before: map<Id, Release>, now: map<Id, Release>, software: nat) {
    && (forall id :: id in before ==> id in now && now[id] == before[id])
    && (forall id :: id in now && id !in before ==>
          && JustStored(now[id], software, now[id].version)
          && Holding(before, software, now[id].version) == {}
          && Holding(now, software, now[id].version) == {id})
  }

  lemma HoldingAfter(rows: map<Id, Release>, id: Id, r: Release, software: nat, version: string)
    requires id !in rows && r.software == software
    ensures Holding(rows[id := r], software, version)
         == Holding(rows, software, version) + if r.version == version then {id} else {}
  {
  }

  lemma ExtendsFurther(before: map<Id, Release>, now: map<Id, Release>, id: Id, r: Release, software: nat)
    requires Extends(before, now, software) && id !in now
    requires JustStored(r, software, r.version) && Holding(now, software, r.version) == {}
    ensures Extends(before, now[id := r], software)
  {
    var next := now[id := r];
    assert Holding(before, software, r.version) <= Holding(now, software, r.version);
    forall k | k in next && k !in before
      ensures Holding(before, software, next[k].version) == {} && Holding(next, software, next[k].version) == {k}
    {
      HoldingAfter(now, id, r, software, next[k].version);
      if k != id {
        assert k in Holding(now, software, next[k].version);
      }
    }
  }

  lemma HoldingStays(before: map<Id, Release>, now: map<Id, Release>, software: nat, version: string)
    requires Extends(before, now, software)
    ensures |Holding(now, software, version)| > 1 ==> |Holding(before, software, version)| > 1
  {
    var b, n := Holding(before, software, version), Holding(now, software, version);
    assert b <= n;
    if id :| id in n && id !in b {
      assert n == {id};
    } else {
      assert b == n;
    }
  }

  /** One result of the pass: skipped when its version is stored, stored otherwise; several
      releases of that version make the lookup raise. */
  method ConsiderResult(service: ReleaseService, s: Session, software: nat, item: Found, ghost before: map<Id, Release>)
    returns (stored: bool, approved: bool, raised: bool)
    requires service.Valid() && item.id !in service.past
    requires Extends(before, service.rows, software)
    modifies service
    ensures service.Valid() && service.past.Keys <= old(service.past.Keys) + {item.id}
    ensures !approved
    ensures Extends(before, service.rows, software)
    ensures |service.rows| == |old(service.rows)| + if stored then 1 else 0
    ensures raised <==> |Holding(old(service.rows), software, item.version)| > 1
    ensures service.W() == if raised then old(service.W()) else AfterResult(old(service.W()), s, software, item)
    ensures raised ==> !stored && |Holding(before, software, item.version)| > 1
    ensures !raised ==> |Holding(service.rows, software, item.version)| == 1
    ensures forall v :: |Holding(old(service.rows), software, v)| == 1 ==> |Holding(service.rows, software, v)| == 1
  {
    stored, approved, raised := false, false, false;
    var existing := Holding(service.rows, software, item.version);
    UnfoldResult(service.W(), s, software, item);
    if |existing| > 1 {
      HoldingStays(before, service.rows, software, item.version);
      raised := true;
    } else if |existing| == 1 {
      var id :| id in existing;
      assert id == Only(existing);
      hide *;
      var _ := service.GetReleaseById(s, id);
    } else {
      ghost var was := service.rows;
      assert was.Keys <= service.past.Keys;
      hide *;
      approved := StoreAndApprove(service, s, software, item);
      stored := true;
      StoredOne(before, was, item.id, service.rows[item.id], software, item.version);
    }
  }

  lemma UnfoldResult(w: World, s: Session, software: nat, item: Found)
    ensures var existing := Holding(w.rows, software, item.version);
            && (|existing| == 1 ==> AfterResult(w, s, software, item) == Loaded(w, s, Only(existing)))
            && (|existing| == 0 ==> AfterResult(w, s, software, item) == AfterStoreAndApprove(w, s, software, item))
  {
    hide Holding, Loaded, AfterStoreAndApprove;
  }

  lemma StoredOne(before: map<Id, Release>, was: map<Id, Release>, id: Id, r: Release, software: nat, version: string)
    requires Extends(before, was, software) && id !in was
    requires JustStored(r, software, version) && |Holding(was, software, version)| == 0
    ensures Extends(before, was[id := r], software)
    ensures |was[id := r]| == |was| + 1
    ensures |Holding(was[id := r], software, version)| == 1
    ensures forall v :: |Holding(was, software, v)| == 1 ==> |Holding(was[id := r], software, v)| == 1
  {
    ExtendsFurther(before, was, id, r, software);
    hide Extends;
    forall v
      ensures |Holding(was, software, v)| == 1 ==> |Holding(was[id := r], software, v)| == 1
    {
      HoldingAfter(was, id, r, software, v);
    }
    HoldingAfter(was, id, r, software, version);
  }

  /** Stores every version not yet stored and tries to approve the confident ones. Within one
      uninterrupted pass the approval never succeeds: the release it just stored is DISCOVERED or
      REJECTED, and the table lets neither move to APPROVED. */
  method CheckResults(service: ReleaseService, s: Session, software: nat, found: seq<Found>)
    returns (newCount: nat, autoApproved: nat, raised: bool)
    requires service.Valid() && FreshIds(service.past, found, 0)
    modifies service
    ensures service.Valid() && service.W() == AfterResults(old(service.W()), s, software, found)
    ensures autoApproved == 0
    ensures Extends(old(service.rows), service.rows, software)
    ensures newCount == |service.rows| - |old(service.rows)|
    ensures forall id :: id in service.rows && id !in old(service.rows) ==>
              IsOnly(service.rows, id, software, service.rows[id].version)
    ensures !raised ==> forall i :: 0 <= i < |found| ==> StoredOnce(service.rows, software, found[i].version)
    ensures raised ==> exists i :: 0 <= i < |found| && StoredTwice(old(service.rows), software, found[i].version)
  {
    hide Holding, Extends, OneEach, AfterResults, AfterResult, Only, StoredOnce, StoredTwice, IsOnly;
    assert found[0..] == found;
    newCount, autoApproved, raised := 0, 0, false;
    NothingYet(service.rows, software);
    for i := 0 to |found|
      invariant service.Valid() && FreshIds(service.past, found, i)
      invariant autoApproved == 0 && !raised
      invariant AfterResults(service.W(), s, software, found[i..]) == AfterResults(old(service.W()), s, software, found)
      invariant newCount == |service.rows| - |old(service.rows)|
      invariant Extends(old(service.rows), service.rows, software)
      invariant OneEach(service.rows, software, found[..i])
    {
      ghost var was := service.rows;
      ResultsStep(service.W(), s, software, found, i);
      var stored, approved, failed := ConsiderResult(service, s, software, found[i], old(service.rows));
      if failed {
        raised := true;
        HoldingMeans(old(service.rows), software, found[i].version);
        NewAreOnly(old(service.rows), service.rows, software);
        return;
      }
      newCount := newCount + if stored then 1 else 0;
      autoApproved := autoApproved + if approved then 1 else 0;
      OneMore(was, service.rows, software, found, i);
    }
    assert found[..|found|] == found;
    ResultsEnd(service.W(), s, software, found);
    EachOnce(service.rows, software, found);
    NewAreOnly(old(service.rows), service.rows, software);
  }

  lemma EachOnce(rows: map<Id, Release>, software: nat, found: seq<Found>)
    requires OneEach(rows, software, found)
    ensures forall i :: 0 <= i < |found| ==> StoredOnce(rows, software, found[i].version)
  {
    hide Holding, StoredOnce;
    forall i | 0 <= i < |found|
      ensures StoredOnce(rows, software, found[i].version)
    {
      HoldingMeans(rows, software, found[i].version);
    }
  }

  lemma NewAreOnly(before: map<Id, Release>, now: map<Id, Release>, software: nat)
    requires Extends(before, now, software)
    ensures forall id :: id in now && id !in before ==> IsOnly(now, id, software, now[id].version)
  {
    hide Holding, IsOnly;
    forall id | id in now && id !in before
      ensures IsOnly(now, id, software, now[id].version)
    {
      HoldingMeans(now, software, now[id].version);
    }
  }

  lemma NothingYet(rows: map<Id, Release>, software: nat)
    ensures Extends(rows, rows, software) && OneEach(rows, software, [])
  {
  }

  lemma OneMore(was: map<Id, Release>, now: map<Id, Release>, software: nat, found: seq<Found>, i: nat)
    requires i < |found|
    requires OneEach(was, software, found[..i]) && |Holding(now, software, found[i].version)| == 1
    requires forall v :: |Holding(was, software, v)| == 1 ==> |Holding(now, software, v)| == 1
    ensures OneEach(now, software, found[..i + 1])
  {
    var first := found[..i + 1];
    forall j | 0 <= j < |first|
      ensures |Holding(now, software, first[j].version)| == 1
    {
      if j < i {
        assert found[..i][j] == first[j];
      }
    }
  }
}
