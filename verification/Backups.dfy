/** Backup files in a directory: making a set and pruning the oldest sets. */
module Backups {
  import opened Collections
  import opened Stamps

  const PREFIX := "softarr_"

  /** A backup file of a set, named after the stamp of the set. */
  function BackupName(stamp: string, ini: bool): string {
    PREFIX + stamp + if ini then ".ini" else ".db"
  }

  predicate Named(f: string, extension: string) {
    && |f| == 23 + |extension| && f[..8] == PREFIX && f[23..] == extension && IsStamp(f[8..23])
  }

  predicate IsBackup(f: string) {
    Named(f, ".ini") || Named(f, ".db")
  }

  function StampsOf(files: set<string>): set<string> {
    set f | f in files && IsBackup(f) :: f[8..23]
  }

  lemma NameHasStamp(stamp: string, ini: bool)
    requires IsStamp(stamp)
    ensures IsBackup(BackupName(stamp, ini)) && BackupName(stamp, ini)[8..23] == stamp
  {
    var f := BackupName(stamp, ini);
    var extension := if ini then ".ini" else ".db";
    assert f == PREFIX + stamp + extension && |PREFIX| == 8;
    assert f[..8] == PREFIX && f[8..23] == stamp && f[23..] == extension;
  }

  lemma BackupHasName(f: string)
    requires IsBackup(f)
    ensures f == BackupName(f[8..23], true) || f == BackupName(f[8..23], false)
    ensures IsStamp(f[8..23])
  {
    assert f == f[..8] + f[8..23] + f[23..];
  }

  /** The names of the two files of a backup. */
  lemma NamesAre(clock: Clock)
    ensures BackupName(clock.Stamp(), true) == "softarr_" + clock.Stamp() + ".ini"
    ensures BackupName(clock.Stamp(), false) == "softarr_" + clock.Stamp() + ".db"
  {
  }

  /** A file that a backup leaves: the settings file if it was copied or broke off half-way, and then the
      database likewise, unless the settings file failed. */
  lemma CopiesMean(clock: Clock, ini: Source, db: Source, f: string)
    ensures f in Copies(clock, ini, db) <==>
              || (f == "softarr_" + clock.Stamp() + ".ini" && ini in {Copied, Broken(true)})
              || (f == "softarr_" + clock.Stamp() + ".db" && ini in {Absent, Copied} && db in {Copied, Broken(true)})
  {
    NamesAre(clock);
    hide BackupName;
  }

  /** The sets that a directory holds: those of which a file is there. */
  lemma StampsMean(files: set<string>, stamp: string)
    ensures stamp in StampsOf(files)
        <==> IsStamp(stamp) && (BackupName(stamp, true) in files || BackupName(stamp, false) in files)
  {
    if stamp in StampsOf(files) {
      var f :| f in files && IsBackup(f) && f[8..23] == stamp;
      BackupHasName(f);
    } else if IsStamp(stamp) {
      NameHasStamp(stamp, true);
      NameHasStamp(stamp, false);
    }
  }

  /** `kept` are the latest `n` of `all`, or all of them. */
  ghost predicate MostRecent(all: set<string>, kept: set<string>, n: nat) {
    && kept <= all
    && |kept| == Min(n, |all|)
    && forall a, b :: a in kept && b in all - kept ==> TextLess(b, a)
  }

  /** The files of the given sets. */
  function FilesOf(stamps: set<string>): set<string> {
    (set t | t in stamps :: BackupName(t, true)) + (set t | t in stamps :: BackupName(t, false))
  }

  lemma {:induction false} Earliest(stamps: set<string>) returns (first: string)
    requires stamps != {}
    ensures first in stamps && forall t :: t in stamps && t != first ==> TextLess(first, t)
    decreases |stamps|
  {
    first :| first in stamps;
    var one, rest := first, stamps - {first};
    assert forall t :: t in stamps <==> t == one || t in rest;
    if rest != {} {
      var other := Earliest(rest);
      TextLessIsOrder(one, other, other);
      hide TextLess;
      if TextLess(one, other) {
        forall t | t in rest
          ensures TextLess(one, t)
        {
          TextLessIsOrder(one, other, t);
        }
      } else {
        first := other;
      }
    }
  }

  predicate Ascending(s: seq<string>) {
    forall i, j :: 0 <= i < j < |s| ==> TextLess(s[i], s[j])
  }

  lemma AscendingNoRepeats(s: seq<string>)
    requires Ascending(s)
    ensures NoRepeats(s)
  {
    forall i, j | 0 <= i < j < |s|
      ensures s[i] != s[j]
    {
      TextLessIsOrder(s[i], s[i], s[i]);
    }
  }

  lemma SuffixIsMostRecent(s: seq<string>, n: nat)
    requires Ascending(s)
    ensures var cut := if |s| > n then |s| - n else 0;
            && MostRecent(Members(s), Members(s[cut..]), n)
            && Members(s) - Members(s[cut..]) == Members(s[..cut])
  {
    var cut := if |s| > n then |s| - n else 0;
    AscendingNoRepeats(s);
    AscendingNoRepeats(s[cut..]);
    SizeOfMembers(s);
    SizeOfMembers(s[cut..]);
    forall a, b | a in s[cut..] && b in s[..cut]
      ensures TextLess(b, a)
    {
      var i :| 0 <= i < |s| - cut && s[cut..][i] == a;
      var j :| 0 <= j < cut && s[j] == b;
      assert s[cut + i] == a;
    }
    forall t
      ensures t in s <==> t in s[cut..] || t in s[..cut]
      ensures !(t in s[cut..] && t in s[..cut])
    {
      TextLessIsOrder(t, t, t);
      assert s == s[..cut] + s[cut..];
    }
  }

  predicate AllLess(s: seq<string>, stamps: set<string>) {
    forall i, t :: 0 <= i < |s| && t in stamps ==> TextLess(s[i], t)
  }

  lemma PutNext(s: seq<string>, left: set<string>, next: string)
    requires Ascending(s) && AllLess(s, left) && next in left
    requires forall t :: t in left ==> t == next || TextLess(next, t)
    ensures Ascending(s + [next]) && AllLess(s + [next], left - {next})
    ensures Members(s + [next]) == Members(s) + {next}
  {
    hide TextLess;
  }

  method SortStamps(stamps: set<string>) returns (s: seq<string>)
    ensures Ascending(s) && Members(s) == stamps
  {
    s := [];
    var left := stamps;
    assert Ascending(s) && AllLess(s, left) && Members(s) + left == stamps;
    hide *;
    while left != {}
      invariant Members(s) + left == stamps && Ascending(s) && AllLess(s, left)
      decreases |left|
    {
      ghost var first := Earliest(left);
      var next :| next in left && forall t | t in left :: t == next || TextLess(next, t);
      PutNext(s, left, next);
      s := s + [next];
      left := left - {next};
    }
  }

  /** There is only one way to be the most recent ones. */
  lemma MostRecentIsUnique(all: set<string>, a: set<string>, b: set<string>, n: nat)
    requires MostRecent(all, a, n) && MostRecent(all, b, n)
    ensures a == b
  {
    assert |a - b| == |b - a| by {
      assert |a| == |a - b| + |a * b| && |b| == |b - a| + |a * b| by {
        assert a == (a - b) + (a * b) && b == (b - a) + (a * b);
      }
    }
    if a - b == {} {
      assert b - a == {};
    } else {
      var s :| s in a - b;
      var t :| t in b - a;
      assert TextLess(t, s) && TextLess(s, t);
      TextLessIsOrder(s, t, s);
      assert false;
    }
  }

  /** A file belongs to a set if it is named after the stamp. */
  lemma StampsAre(files: set<string>, stamp: string)
    ensures stamp in StampsOf(files) <==>
              && |stamp| == 15 && stamp[8] == '_'
              && (forall i :: 0 <= i < 15 && i != 8 ==> '0' <= stamp[i] <= '9')
              && ("softarr_" + stamp + ".ini" in files || "softarr_" + stamp + ".db" in files)
  {
    StampsMean(files, stamp);
    hide StampsOf;
    assert BackupName(stamp, true) == "softarr_" + stamp + ".ini";
    assert BackupName(stamp, false) == "softarr_" + stamp + ".db";
  }

  /** The stamps that are kept are those of the latest clocks. */
  lemma RecentByClock(all: set<string>, kept: set<string>, n: nat, a: Clock, b: Clock)
    requires MostRecent(all, kept, n)
    requires a.Fits() && b.Fits() && a.Stamp() in kept && b.Stamp() in all - kept
    ensures b.Before(a)
  {
    StampOrder(b, a);
  }

  /** `after` is the directory `before` without the files, as far as they can be deleted, of the sets
      that are not kept; with a positive count the sets kept are the most recent, otherwise all. */
  ghost predicate IsPruning(
      before: set<string>, after: set<string>, kept: set<string>, keep: int, locked: set<string>)
  {
    && (if keep > 0 then MostRecent(StampsOf(before), kept, keep) else kept == StampsOf(before))
    && after == before - (FilesOf(StampsOf(before) - kept) - locked)
  }

  lemma NoneGone(files: set<string>, locked: set<string>)
    ensures FilesOf(StampsOf(files) - StampsOf(files)) == {}
    ensures FilesOf(Members([])) == {}
  {
    assert StampsOf(files) - StampsOf(files) == {};
    assert Members<string>([]) == {};
  }

  lemma OneSet(stamp: string)
    ensures FilesOf({stamp}) == {BackupName(stamp, true), BackupName(stamp, false)}
  {
    hide BackupName;
  }

  function Unlinked<T(==)>(files: set<T>, f: T, locked: set<T>): set<T> {
    if f in files && f !in locked then files - {f} else files
  }

  lemma UnlinkedTwice<T>(files: set<T>, a: T, b: T, locked: set<T>)
    ensures Unlinked(Unlinked(files, a, locked), b, locked) == files - ({a, b} - locked)
  {
  }

  lemma UnlinkedMore<T>(files: set<T>, a: set<T>, b: set<T>, locked: set<T>)
    ensures files - (a - locked) - (b - locked) == files - (a + b - locked)
  {
  }

  lemma OneMoreGone(stamps: seq<string>, i: nat)
    requires i < |stamps|
    ensures FilesOf(Members(stamps[..i + 1])) == FilesOf(Members(stamps[..i])) + FilesOf({stamps[i]})
  {
    hide BackupName;
    MembersMore(stamps, i);
  }

  /** A file that a backup may copy: it is not there, it is copied, or the copying fails and may leave
      something behind. */
  datatype Source = Absent | Copied | Broken(left: bool)

  datatype Report = Skipped | Done(files: set<string>, pruned: nat) | Error

  function Copy(clock: Clock, ini: bool, source: Source): set<string> {
    if source == Copied || source == Broken(true) then {BackupName(clock.Stamp(), ini)} else {}
  }

  /** The files that a backup makes; the database is not copied once the settings file failed. */
  function Copies(clock: Clock, ini: Source, db: Source): set<string> {
    Copy(clock, true, ini) + if ini.Broken? then {} else Copy(clock, false, db)
  }

  class BackupDirectory {
    var files: set<string>

    constructor (files: set<string>)
      ensures this.files == files
    {
      this.files := files;
    }

    /** Deletes the files of all but the latest sets; `locked` are the files that refuse to go.
        Returns the number of files deleted. */
    method PruneOldBackups(keep: int, locked: set<string>) returns (deleted: nat, ghost kept: set<string>)
      modifies this
      ensures IsPruning(old(files), files, kept, keep, locked)
      ensures deleted == |old(files)| - |files|
    {
      kept := StampsOf(files);
      if keep <= 0 {
        NoneGone(files, locked);
        return 0, kept;
      }
      var sorted := SortStamps(StampsOf(files));
      var toRemove := sorted[..if |sorted| > keep then |sorted| - keep else 0];
      kept := Members(sorted[|toRemove|..]);
      SuffixIsMostRecent(sorted, keep);
      hide MostRecent, StampsOf, FilesOf, Members, Ascending, Min, TextLess, BackupName;
      deleted := RemoveSets(toRemove, locked);
    }

    method RemoveSets(stamps: seq<string>, locked: set<string>) returns (deleted: nat)
      modifies this
      ensures files == old(files) - (FilesOf(Members(stamps)) - locked)
      ensures deleted == |old(files)| - |files|
    {
      hide *;
      NoneGone(files, locked);
      assert stamps[..0] == [];
      deleted := 0;
      for i := 0 to |stamps|
        invariant files == old(files) - (FilesOf(Members(stamps[..i])) - locked)
        invariant deleted == |old(files)| - |files|
      {
        OneMoreGone(stamps, i);
        UnlinkedMore(old(files), FilesOf(Members(stamps[..i])), FilesOf({stamps[i]}), locked);
        var n := RemoveSet(stamps[i], locked);
        deleted := deleted + n;
      }
      assert stamps[..|stamps|] == stamps;
    }

    method RemoveSet(stamp: string, locked: set<string>) returns (deleted: nat)
      modifies this
      ensures files == old(files) - (FilesOf({stamp}) - locked)
      ensures deleted == |old(files)| - |files|
    {
      deleted := 0;
      var ini, db := BackupName(stamp, true), BackupName(stamp, false);
      OneSet(stamp);
      UnlinkedTwice(files, ini, db, locked);
      hide BackupName, FilesOf;
      if ini in files && ini !in locked {
        files := files - {ini};
        deleted := deleted + 1;
      }
      assert files == Unlinked(old(files), ini, locked);
      if db in files && db !in locked {
        files := files - {db};
        deleted := deleted + 1;
      }
    }

    /** Copies what there is to copy under the stamp of the clock, then prunes; a copy that fails ends the
        backup before anything is pruned. */
    method RunBackup(
        configured: bool, sqlite: bool, clock: Clock, ini: Source, db: Source, keep: int, locked: set<string>)
      returns (report: Report, ghost kept: set<string>)
      modifies this
      ensures report.Skipped? <==> !configured || !sqlite
      ensures report.Error? <==> configured && sqlite && (ini.Broken? || db.Broken?)
      ensures report.Skipped? ==> files == old(files)
      ensures report.Error? ==> files == old(files) + Copies(clock, ini, db)
      ensures report.Done? ==> report.files == Copies(clock, ini, db)
      ensures report.Done? ==> IsPruning(old(files) + Copies(clock, ini, db), files, kept, keep, locked)
      ensures report.Done? ==> report.pruned == |old(files) + Copies(clock, ini, db)| - |files|
    {
      kept := {};
      assert Copies(clock, ini, db) == Copy(clock, true, ini) + if ini.Broken? then {} else Copy(clock, false, db);
      hide IsPruning, BackupName, Copy, Copies;
      if !configured || !sqlite {
        return Skipped, kept;
      }
      var created := Copy(clock, true, ini);
      if ini.Broken? {
        assert created == created + {};
        files := files + created;
        return Error, kept;
      }
      created := created + Copy(clock, false, db);
      files := files + created;
      if db.Broken? {
        return Error, kept;
      }
      assert created == Copies(clock, ini, db);
      var pruned: nat;
      pruned, kept := PruneOldBackups(keep, locked);
      report := Done(created, pruned);
    }
  }

  /** Once the files of the other sets are gone, the sets that a directory holds are those kept,
      and files that are no backups are all still there. */
  lemma PrunedDirectory(files: set<string>, kept: set<string>)
    requires kept <= StampsOf(files)
    ensures StampsOf(files - FilesOf(StampsOf(files) - kept)) == kept
    ensures forall f :: f in files && !IsBackup(f) ==> f in files - FilesOf(StampsOf(files) - kept)
    ensures forall f :: f in files && IsBackup(f) && f[8..23] in kept ==> f in files - FilesOf(StampsOf(files) - kept)
  {
    var gone := StampsOf(files) - kept;
    forall f | f in FilesOf(gone)
      ensures IsBackup(f) && f[8..23] in gone
    {
      var t :| t in gone && (f == BackupName(t, true) || f == BackupName(t, false));
      StampsMean(files, t);
      NameHasStamp(t, true);
      NameHasStamp(t, false);
    }
    forall t | t in StampsOf(files - FilesOf(gone))
      ensures t in kept
    {
      var f :| f in files - FilesOf(gone) && IsBackup(f) && f[8..23] == t;
      BackupHasName(f);
      assert t in StampsOf(files) && f !in FilesOf(gone);
    }
    forall t | t in kept
      ensures t in StampsOf(files - FilesOf(gone))
    {
      var f :| f in files && IsBackup(f) && f[8..23] == t;
      assert f in files - FilesOf(gone);
    }
  }

  lemma StampsShrink(before: set<string>, after: set<string>, kept: set<string>, locked: set<string>)
    requires kept <= StampsOf(before)
    requires after == before - (FilesOf(StampsOf(before) - kept) - locked)
    ensures kept <= StampsOf(after) <= StampsOf(before)
  {
    forall t | t in kept
      ensures t in StampsOf(after)
    {
      PrunedDirectory(before, kept);
      var f :| f in before - FilesOf(StampsOf(before) - kept) && IsBackup(f) && f[8..23] == t;
      assert f in after;
    }
  }

  lemma StillMostRecent(all: set<string>, some: set<string>, kept: set<string>, n: nat)
    requires MostRecent(all, kept, n) && kept <= some <= all
    ensures MostRecent(some, kept, n)
  {
    SubsetSize(kept, some);
    SubsetSize(some, all);
  }

  lemma FilesOfSubset(a: set<string>, b: set<string>)
    requires a <= b
    ensures FilesOf(a) <= FilesOf(b)
  {
    hide BackupName;
  }

  /** Pruning a directory again, with the same files refusing to be deleted, keeps the same sets and
      deletes no file. */
  lemma PruneAgain(
      before: set<string>, after: set<string>, again: set<string>,
      kept: set<string>, keptAgain: set<string>, keep: int, locked: set<string>)
    requires IsPruning(before, after, kept, keep, locked) && IsPruning(after, again, keptAgain, keep, locked)
    ensures again == after && keptAgain == kept
  {
    StampsShrink(before, after, kept, locked);
    if keep > 0 {
      StillMostRecent(StampsOf(before), StampsOf(after), kept, keep);
      MostRecentIsUnique(StampsOf(after), kept, keptAgain, keep);
    }
    FilesOfSubset(StampsOf(after) - kept, StampsOf(before) - kept);
    hide StampsOf, FilesOf, MostRecent;
    assert keptAgain == kept;
  }

  /** A backup that is taken later than those in the directory is kept. */
  lemma NewBackupIsKept(files: set<string>, clock: Clock, ini: Source, db: Source, kept: set<string>, n: nat)
    requires clock.Fits() && n > 0
    requires !ini.Broken? && !db.Broken? && (ini == Copied || db == Copied)
    requires forall t :: t in StampsOf(files) && t != clock.Stamp() ==> TextLess(t, clock.Stamp())
    requires MostRecent(StampsOf(files + Copies(clock, ini, db)), kept, n)
    ensures clock.Stamp() in kept
  {
    var stamp := clock.Stamp();
    var all := StampsOf(files + Copies(clock, ini, db));
    ClockHasStamp(clock);
    StampsMean(files + Copies(clock, ini, db), stamp);
    assert stamp in all;
    if stamp !in kept {
      assert |kept| > 0 by {
        assert |all| > 0;
      }
      var t :| t in kept;
      assert TextLess(stamp, t);
      NameHasStamp(stamp, true);
      NameHasStamp(stamp, false);
      assert t in StampsOf(files);
      TextLessIsOrder(t, stamp, t);
      assert false;
    }
  }
}
