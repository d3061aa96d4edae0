/** The daily retention pass over the stored releases. */
module Retention {
  import opened Collections
  import opened Workflow

  type Seconds = int

  const DAY: Seconds := 86400

  datatype Row = Row(id: Id, software: nat, state: State, created: Seconds, version: string)

  datatype Policy = Policy(discoveredDays: int, rejectedEnabled: bool, rejectedDays: int, keep: int)

  /** Later creation comes first; rows of the same time are told apart by their id. */
  predicate Newer(a: Row, b: Row) {
    a.created > b.created || (a.created == b.created && a.id < b.id)
  }

  predicate Keyed(rows: set<Row>) {
    forall a, b :: a in rows && b in rows && a.id == b.id ==> a == b
  }

  function Downloads(rows: set<Row>, software: nat): set<Row> {
    set r | r in rows && r.software == software && r.state == Downloaded
  }

  /** The rows of `rows` that are newer than `r`. */
  function Ahead(rows: set<Row>, r: Row): set<Row> {
    set x | x in rows && Newer(x, r)
  }

  function Old(rows: set<Row>, state: State, cutoff: Seconds): set<Row> {
    set r | r in rows && r.state == state && r.created < cutoff
  }

  /** Downloads with at least `keep` newer downloads of the same software. */
  function Surplus(rows: set<Row>, software: nat, keep: nat): set<Row> {
    set r | r in Downloads(rows, software) && |Ahead(Downloads(rows, software), r)| >= keep
  }

  function SurplusOfAll(rows: set<Row>, software: set<nat>, keep: nat): set<Row> {
    set r | r in rows && r.software in software && r in Surplus(rows, r.software, keep)
  }

  /** What a whole pass at time `now` deletes. */
  function Doomed(rows: set<Row>, software: set<nat>, p: Policy, now: Seconds): set<Row> {
    Old(rows, Discovered, now - p.discoveredDays * DAY)
    + (if p.rejectedEnabled then Old(rows, Rejected, now - p.rejectedDays * DAY) else {})
    + (if p.keep > 0 then SurplusOfAll(rows, software, p.keep) else {})
  }

  // ----- counting in a strict order -----

  /** Some row of a set is newer than all the others. */
  lemma {:induction false} Newest(rows: set<Row>) returns (r: Row)
    requires rows != {} && Keyed(rows)
    ensures r in rows && forall x :: x in rows && x != r ==> Newer(r, x)
    decreases |rows|
  {
    r :| r in rows;
    var rest := rows - {r};
    if rest != {} {
      var best := Newest(rest);
      assert r.id != best.id;
      forall x | x in rest && Newer(r, best)
        ensures Newer(r, x)
      {
      }
      if Newer(best, r) {
        r := best;
      }
    }
  }

  predicate NewestFirst(s: seq<Row>) {
    forall i, j :: 0 <= i < j < |s| ==> Newer(s[i], s[j])
  }

  predicate AllBefore(s: seq<Row>, rows: set<Row>) {
    forall i, x :: 0 <= i < |s| && x in rows ==> Newer(s[i], x)
  }

  lemma KeyedSubset(rows: set<Row>, some: set<Row>)
    requires Keyed(rows) && some <= rows
    ensures Keyed(some)
  {
  }

  lemma PutNext(s: seq<Row>, left: set<Row>, next: Row)
    requires NewestFirst(s) && AllBefore(s, left) && next in left
    requires forall x :: x in left ==> x == next || Newer(next, x)
    ensures NewestFirst(s + [next]) && AllBefore(s + [next], left - {next})
    ensures Members(s + [next]) == Members(s) + {next}
  {
    hide Newer;
  }

  lemma OrderedNoRepeats(s: seq<Row>)
    requires NewestFirst(s)
    ensures NoRepeats(s)
  {
  }

  /** In a strictly ordered sequence as many rows are ahead of one as stand before it. */
  lemma PlaceIsRank(s: seq<Row>, rows: set<Row>, i: nat)
    requires rows == Members(s)
    requires NewestFirst(s)
    requires i < |s|
    ensures |Ahead(rows, s[i])| == i
  {
    assert Ahead(rows, s[i]) == Members(s[..i]) by {
      forall r | r in Ahead(rows, s[i])
        ensures r in s[..i]
      {
        var j :| 0 <= j < |s| && s[j] == r;
        assert j < i;
      }
    }
    OrderedNoRepeats(s[..i]);
    SizeOfMembers(s[..i]);
  }

  function Leading(rows: set<Row>, n: nat): set<Row> {
    set r | r in rows && |Ahead(rows, r)| < n
  }

  lemma {:induction false} LeadingSize(rows: set<Row>, n: nat)
    requires Keyed(rows)
    ensures |Leading(rows, n)| == Min(n, |rows|)
    decreases |rows|
  {
    hide *;
    if rows == {} || n == 0 {
      NoneLead(rows, n);
    } else {
      var top := Newest(rows);
      KeyedSubset(rows, rows - {top});
      LeadingSize(rows - {top}, n - 1);
      LeadingWithout(rows, top, n);
    }
  }

  lemma NoneLead(rows: set<Row>, n: nat)
    requires rows == {} || n == 0
    ensures Leading(rows, n) == {} && Min(n, |rows|) == 0
  {
  }

  lemma AheadWithout(rows: set<Row>, top: Row, r: Row)
    requires top in rows && r in rows && r != top && Newer(top, r)
    ensures |Ahead(rows, r)| == |Ahead(rows - {top}, r)| + 1
  {
    assert Ahead(rows, r) == Ahead(rows - {top}, r) + {top};
  }

  lemma LeadingWithout(rows: set<Row>, top: Row, n: nat)
    requires n > 0 && top in rows && forall x :: x in rows && x != top ==> Newer(top, x)
    ensures Leading(rows, n) == Leading(rows - {top}, n - 1) + {top}
    ensures |Leading(rows, n)| == |Leading(rows - {top}, n - 1)| + 1
    ensures Min(n, |rows|) == Min(n - 1, |rows - {top}|) + 1
  {
    forall r | r in rows
      ensures r in Leading(rows, n) <==> r in Leading(rows - {top}, n - 1) + {top}
    {
      if r == top {
        assert Ahead(rows, top) == {};
      } else {
        AheadWithout(rows, top, r);
      }
    }
  }

  // ----- the pass -----

  /** Where a slice that starts at `k` begins in a sequence of length `n`. */
  function SliceStart(n: nat, k: int): nat {
    if k >= 0 then Min(k, n) else if n + k > 0 then n + k else 0
  }

  class ReleaseTable {
    const software: seq<nat>
    var rows: set<Row>

    constructor (software: seq<nat>, rows: set<Row>)
      ensures this.software == software && this.rows == rows
    {
      this.software := software;
      this.rows := rows;
    }

    method DeleteOld(state: State, cutoff: Seconds) returns (deleted: nat)
      modifies this`rows
      ensures rows == old(rows) - Old(old(rows), state, cutoff)
      ensures deleted == |Old(old(rows), state, cutoff)|
    {
      var releases := set r | r in rows && r.state == state && r.created < cutoff;
      deleted := |releases|;
      var left := releases;
      while left != {}
        invariant left <= releases && rows == old(rows) - (releases - left)
        decreases |left|
      {
        var release :| release in left;
        rows := rows - {release};
        left := left - {release};
      }
    }

    method DeleteOldDiscovered(days: int, now: Seconds) returns (deleted: nat)
      modifies this`rows
      ensures rows == old(rows) - Old(old(rows), Discovered, now - days * DAY)
      ensures deleted == |Old(old(rows), Discovered, now - days * DAY)|
    {
      deleted := DeleteOld(Discovered, now - days * DAY);
    }

    method DeleteOldRejected(days: int, now: Seconds) returns (deleted: nat)
      modifies this`rows
      ensures rows == old(rows) - Old(old(rows), Rejected, now - days * DAY)
      ensures deleted == |Old(old(rows), Rejected, now - days * DAY)|
    {
      deleted := DeleteOld(Rejected, now - days * DAY);
    }

    /** The downloads of a software entry, the newest first. */
    method SelectDownloads(entry: nat) returns (releases: seq<Row>)
      requires Keyed(rows)
      ensures Members(releases) == Downloads(rows, entry)
      ensures NewestFirst(releases)
    {
      var left := set r | r in rows && r.software == entry && r.state == Downloaded;
      releases := [];
      KeyedSubset(rows, left);
      assert NewestFirst(releases) && AllBefore(releases, left) && Members(releases) + left == Downloads(rows, entry);
      hide Newer, Keyed, NewestFirst, AllBefore, Downloads, Members;
      while left != {}
        invariant Keyed(left) && NewestFirst(releases) && AllBefore(releases, left)
        invariant Members(releases) + left == Downloads(rows, entry)
        decreases |left|
      {
        ghost var newest := Newest(left);
        var next :| next in left && forall x | x in left :: x == next || Newer(next, x);
        PutNext(releases, left, next);
        KeyedSubset(left, left - {next});
        releases := releases + [next];
        left := left - {next};
      }
    }

    /** Deletes all but the first `keep` of the entry's downloads; a negative count deletes that
        many of the oldest, as the slice does. */
    method KeepLatestDownloaded(entry: nat, keep: int) returns (deleted: nat)
      requires Keyed(rows)
      modifies this`rows
      ensures rows == old(rows) - Surplus(old(rows), entry, SliceStart(|Downloads(old(rows), entry)|, keep))
      ensures deleted == |Surplus(old(rows), entry, SliceStart(|Downloads(old(rows), entry)|, keep))|
    {
      var releases := SelectDownloads(entry);
      OrderedNoRepeats(releases);
      SizeOfMembers(releases);
      var toDelete := releases[SliceStart(|releases|, keep)..];
      ghost var surplus := Members(toDelete);
      OrderedNoRepeats(toDelete);
      SizeOfMembers(toDelete);
      SuffixIsSurplus(rows, entry, releases, SliceStart(|releases|, keep));
      for i := 0 to |toDelete|
        invariant rows == old(rows) - Members(toDelete[..i])
      {
        rows := rows - {toDelete[i]};
        MembersMore(toDelete, i);
      }
      assert toDelete[..|toDelete|] == toDelete;
      deleted := |toDelete|;
    }

    /** Purges every entry in turn. */
    method PurgeDownloads(keep: int) returns (purged: nat)
      requires Keyed(rows) && keep > 0
      modifies this`rows
      ensures rows == old(rows) - SurplusOfAll(old(rows), Members(software), keep)
      ensures purged == |SurplusOfAll(old(rows), Members(software), keep)|
    {
      hide Newer, Surplus, SurplusOfAll, Downloads, SliceStart;
      purged := 0;
      ghost var gone := {};
      NoEntries(rows, keep);
      for i := 0 to |software|
        invariant gone == SurplusOfAll(old(rows), Members(software[..i]), keep)
        invariant rows == old(rows) - gone
        invariant purged == |gone|
      {
        ghost var more := Surplus(rows, software[i], SliceStart(|Downloads(rows, software[i])|, keep));
        OneMoreEntry(old(rows), Members(software[..i]), software[i], keep);
        var n := KeepLatestDownloaded(software[i], keep);
        purged := purged + n;
        gone := gone + more;
        MembersMore(software, i);
      }
      assert software[..|software|] == software;
    }

    /** One pass; returns how many releases each part of it deleted. */
    method RetentionPass(p: Policy, now: Seconds) returns (discovered: nat, rejected: nat, purged: nat)
      requires Keyed(rows)
      modifies this`rows
      ensures rows == old(rows) - Doomed(old(rows), Members(software), p, now)
      ensures discovered == |Old(old(rows), Discovered, now - p.discoveredDays * DAY)|
      ensures rejected == if p.rejectedEnabled then |Old(old(rows), Rejected, now - p.rejectedDays * DAY)| else 0
      ensures purged == if p.keep > 0 then |SurplusOfAll(old(rows), Members(software), p.keep)| else 0
    {
      hide SurplusOfAll, Members;
      discovered := DeleteOldDiscovered(p.discoveredDays, now);
      rejected := 0;
      OldAfterOld(rows, old(rows), Discovered, Rejected, now - p.discoveredDays * DAY, now - p.rejectedDays * DAY);
      if p.rejectedEnabled {
        rejected := DeleteOldRejected(p.rejectedDays, now);
      }
      purged := 0;
      if p.keep > 0 {
        SameSurplus(old(rows), rows, Members(software), p.keep);
        purged := PurgeDownloads(p.keep);
      }
    }
  }

  lemma OldAfterOld(left: set<Row>, rows: set<Row>, first: State, second: State, cutoff: Seconds, next: Seconds)
    requires left == rows - Old(rows, first, cutoff) && first != second
    ensures Old(left, second, next) == Old(rows, second, next)
  {
  }

  lemma NoEntries(rows: set<Row>, keep: nat)
    ensures SurplusOfAll(rows, Members([]), keep) == {}
  {
  }

  lemma SuffixIsSurplus(rows: set<Row>, entry: nat, releases: seq<Row>, k: nat)
    requires Members(releases) == Downloads(rows, entry) && k <= |releases|
    requires NewestFirst(releases)
    ensures Members(releases[k..]) == Surplus(rows, entry, k)
  {
    forall i | 0 <= i < |releases|
      ensures |Ahead(Downloads(rows, entry), releases[i])| == i
    {
      PlaceIsRank(releases, Downloads(rows, entry), i);
    }
    forall r
      ensures r in Members(releases[k..]) <==> r in Surplus(rows, entry, k)
    {
      if r in Downloads(rows, entry) {
        var i :| 0 <= i < |releases| && releases[i] == r;
        assert i >= k ==> releases[k..][i - k] == r;
      }
    }
  }

  /** Deleting rows in other states does not change what is surplus. */
  lemma SameSurplus(rows: set<Row>, young: set<Row>, software: set<nat>, keep: nat)
    requires young <= rows && forall r :: r in rows - young ==> r.state != Downloaded
    ensures SurplusOfAll(young, software, keep) == SurplusOfAll(rows, software, keep)
  {
    hide Ahead;
    forall e
      ensures Downloads(young, e) == Downloads(rows, e)
    {
    }
  }

  lemma AheadIsFewer(rows: set<Row>, r: Row)
    requires r in rows
    ensures |Ahead(rows, r)| < |rows|
  {
    SubsetSize(Ahead(rows, r), rows - {r});
  }

  /** A second pass over the same entry finds nothing more. */
  lemma NoSurplusLeft(rows: set<Row>, entry: nat, keep: nat)
    ensures Surplus(rows - Surplus(rows, entry, keep), entry, keep) == {}
  {
    var kept := Downloads(rows - Surplus(rows, entry, keep), entry);
    forall r | r in kept
      ensures |Ahead(kept, r)| < keep
    {
      SubsetSize(Ahead(kept, r), Ahead(Downloads(rows, entry), r));
    }
  }

  /** Slicing beyond the end deletes nothing, as keeping more than there are does. */
  lemma SliceIsKeep(rows: set<Row>, entry: nat, keep: nat)
    ensures Surplus(rows, entry, SliceStart(|Downloads(rows, entry)|, keep)) == Surplus(rows, entry, keep)
  {
    forall r | r in Downloads(rows, entry)
      ensures |Ahead(Downloads(rows, entry), r)| < |Downloads(rows, entry)|
    {
      AheadIsFewer(Downloads(rows, entry), r);
    }
  }

  lemma OneMoreEntry(young: set<Row>, done: set<nat>, entry: nat, keep: nat)
    ensures (var rows := young - SurplusOfAll(young, done, keep);
             var more := Surplus(rows, entry, SliceStart(|Downloads(rows, entry)|, keep));
             && more !! SurplusOfAll(young, done, keep)
             && SurplusOfAll(young, done, keep) + more == SurplusOfAll(young, done + {entry}, keep))
  {
    var rows := young - SurplusOfAll(young, done, keep);
    SliceIsKeep(rows, entry, keep);
    if entry in done {
      DoneEntry(young, done, entry, keep);
      NoSurplusLeft(young, entry, keep);
      assert done + {entry} == done;
    } else {
      FreshEntry(young, done, entry, keep);
    }
  }

  lemma DoneEntry(young: set<Row>, done: set<nat>, entry: nat, keep: nat)
    requires entry in done
    ensures Surplus(young - SurplusOfAll(young, done, keep), entry, keep)
         == Surplus(young - Surplus(young, entry, keep), entry, keep)
  {
    hide Ahead;
    assert Downloads(young - SurplusOfAll(young, done, keep), entry)
        == Downloads(young - Surplus(young, entry, keep), entry);
  }

  lemma FreshEntry(young: set<Row>, done: set<nat>, entry: nat, keep: nat)
    requires entry !in done
    ensures (var more := Surplus(young - SurplusOfAll(young, done, keep), entry, keep);
             && more !! SurplusOfAll(young, done, keep)
             && SurplusOfAll(young, done, keep) + more == SurplusOfAll(young, done + {entry}, keep))
  {
    hide Ahead;
    assert Downloads(young - SurplusOfAll(young, done, keep), entry) == Downloads(young, entry);
  }

  // ----- what a pass promises -----

  function After(rows: set<Row>, software: set<nat>, p: Policy, now: Seconds): set<Row> {
    rows - Doomed(rows, software, p, now)
  }

  lemma DownloadsAfter(rows: set<Row>, software: set<nat>, p: Policy, now: Seconds, entry: nat)
    ensures Downloads(After(rows, software, p, now), entry)
         == if p.keep > 0 && entry in software then Leading(Downloads(rows, entry), p.keep) else Downloads(rows, entry)
    ensures Downloads(After(rows, software, p, now), entry) <= Downloads(rows, entry)
  {
  }

  /** Each entry is left with as many downloads as it had, up to the count, and each of them was created
      after each that was deleted, or at the same time with a smaller id. */
  lemma NewestAreKept(rows: set<Row>, software: set<nat>, p: Policy, now: Seconds, entry: nat)
    requires Keyed(rows) && p.keep > 0 && entry in software
    ensures (var after := After(rows, software, p, now);
             var before := set r | r in rows && r.software == entry && r.state == Downloaded;
             var kept := set r | r in after && r.software == entry && r.state == Downloaded;
             && |kept| == (if p.keep <= |before| then p.keep else |before|)
             && kept <= before
             && forall a, b :: a in kept && b in before - kept ==>
                  a.created > b.created || (a.created == b.created && a.id < b.id))
  {
    var after := After(rows, software, p, now);
    var before, kept := Downloads(rows, entry), Downloads(after, entry);
    DownloadsAre(rows, entry);
    DownloadsAre(after, entry);
    assert Min(p.keep, |before|) == if p.keep <= |before| then p.keep else |before|;
    hide After, Downloads, Keyed, Min;
    KeptDownloads(rows, software, p, now, entry);
    forall a, b | a in kept && b in before - kept
      ensures a.created > b.created || (a.created == b.created && a.id < b.id)
    {
      assert Newer(a, b);
    }
  }

  lemma DownloadsAre(rows: set<Row>, entry: nat)
    ensures Downloads(rows, entry) == set r | r in rows && r.software == entry && r.state == Downloaded
  {
  }

  lemma KeptDownloads(rows: set<Row>, software: set<nat>, p: Policy, now: Seconds, entry: nat)
    requires Keyed(rows) && p.keep > 0 && entry in software
    ensures (var before, kept := Downloads(rows, entry), Downloads(After(rows, software, p, now), entry);
             && |kept| == Min(p.keep, |before|)
             && kept <= before
             && forall a, b :: a in kept && b in before - kept ==> Newer(a, b))
  {
    var before, kept := Downloads(rows, entry), Downloads(After(rows, software, p, now), entry);
    DownloadsAfter(rows, software, p, now, entry);
    KeyedSubset(rows, before);
    LeadingSize(before, p.keep);
    hide Keyed, Downloads, After, Newer;
    forall a, b | a in kept && b in before - kept
      ensures Newer(a, b)
    {
      LeadingFirst(before, p.keep, a, b);
    }
  }

  lemma LeadingFirst(rows: set<Row>, n: nat, a: Row, b: Row)
    requires Keyed(rows) && a in Leading(rows, n) && b in rows - Leading(rows, n)
    ensures Newer(a, b)
  {
    if Newer(b, a) {
      SubsetSize(Ahead(rows, b), Ahead(rows, a));
    }
  }

  /** Apart from surplus downloads only releases that were never taken up, and rejected ones where
      that is switched on, are deleted, and only those that are over age. */
  lemma OthersAreKept(rows: set<Row>, software: set<nat>, p: Policy, now: Seconds, r: Row)
    requires r in rows && r.state != Downloaded
    ensures r !in After(rows, software, p, now) <==>
              || (r.state == Discovered && r.created + p.discoveredDays * 86400 < now)
              || (r.state == Rejected && p.rejectedEnabled && r.created + p.rejectedDays * 86400 < now)
  {
  }

  /** A download goes exactly if its entry is among those that are purged and has at least the number to
      keep of downloads that were created after it, or at the same time with a smaller id. */
  lemma DownloadGoes(rows: set<Row>, software: set<nat>, p: Policy, now: Seconds, r: Row)
    requires r in rows && r.state == Downloaded
    ensures var newer := set x | x in rows && x.software == r.software && x.state == Downloaded
                                 && (x.created > r.created || (x.created == r.created && x.id < r.id));
            r !in After(rows, software, p, now) <==> p.keep > 0 && r.software in software && |newer| >= p.keep
  {
    NewerAre(rows, r);
    GoesIfAhead(rows, software, p, now, r);
    hide *;
  }

  lemma NewerAre(rows: set<Row>, r: Row)
    ensures Ahead(Downloads(rows, r.software), r)
         == set x | x in rows && x.software == r.software && x.state == Downloaded
                    && (x.created > r.created || (x.created == r.created && x.id < r.id))
  {
  }

  lemma GoesIfAhead(rows: set<Row>, software: set<nat>, p: Policy, now: Seconds, r: Row)
    requires r in rows && r.state == Downloaded
    ensures r !in After(rows, software, p, now) <==>
              p.keep > 0 && r.software in software && |Ahead(Downloads(rows, r.software), r)| >= p.keep
  {
    hide Ahead;
  }

  predicate IsLatest(rows: set<Row>, entry: nat, r: Row) {
    r in Downloads(rows, entry) && forall x :: x in Downloads(rows, entry) && x != r ==> Newer(r, x)
  }

  /** An entry is wanted while nothing of it has been downloaded. */
  predicate Wanted(rows: set<Row>, entry: nat) {
    Downloads(rows, entry) == {}
  }

  /** The release whose version counts as the latest downloaded, and whether an entry is wanted, stay. */
  lemma LatestAndWantedStay(rows: set<Row>, software: set<nat>, p: Policy, now: Seconds, entry: nat)
    requires Keyed(rows)
    ensures Wanted(After(rows, software, p, now), entry) <==> Wanted(rows, entry)
    ensures forall r :: IsLatest(After(rows, software, p, now), entry, r) <==> IsLatest(rows, entry, r)
  {
    var before := Downloads(rows, entry);
    KeyedSubset(rows, before);
    hide Downloads, Keyed, Newer, After, Doomed, Leading, IsLatest;
    DownloadsAfter(rows, software, p, now, entry);
    if before == {} {
      NothingLeads(rows, After(rows, software, p, now), entry);
    } else {
      var top := Newest(before);
      TopLeads(before, top, p.keep);
      LatestIsTop(rows, entry, top);
      LatestIsTop(After(rows, software, p, now), entry, top);
    }
  }

  lemma NothingLeads(rows: set<Row>, after: set<Row>, entry: nat)
    requires Downloads(rows, entry) == {}
    requires Downloads(after, entry) <= Downloads(rows, entry)
    ensures Downloads(after, entry) == {}
    ensures forall r :: !IsLatest(rows, entry, r) && !IsLatest(after, entry, r)
  {
  }

  lemma TopLeads(rows: set<Row>, top: Row, keep: int)
    requires top in rows && forall x :: x in rows && x != top ==> Newer(top, x)
    ensures keep > 0 ==> top in Leading(rows, keep) && Leading(rows, keep) <= rows
  {
    assert Ahead(rows, top) == {};
  }

  lemma LatestIsTop(rows: set<Row>, entry: nat, top: Row)
    requires top in Downloads(rows, entry)
    requires forall x :: x in Downloads(rows, entry) && x != top ==> Newer(top, x)
    ensures forall r :: IsLatest(rows, entry, r) <==> r == top
  {
    hide Downloads;
    forall r
      ensures IsLatest(rows, entry, r) <==> r == top
    {
    }
  }

  /** A second pass at the same time deletes nothing. */
  lemma PassIsIdempotent(rows: set<Row>, software: set<nat>, p: Policy, now: Seconds)
    ensures After(After(rows, software, p, now), software, p, now) == After(rows, software, p, now)
  {
    var once := After(rows, software, p, now);
    forall entry
      ensures p.keep > 0 && entry in software ==> Surplus(once, entry, p.keep) == {}
    {
      if p.keep > 0 && entry in software {
        assert Downloads(once, entry) == Downloads(rows - Surplus(rows, entry, p.keep), entry);
        NoSurplusLeft(rows, entry, p.keep);
      }
    }
    assert Doomed(once, software, p, now) == {};
  }
}
