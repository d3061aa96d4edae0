/** The version check, the search for upgrades and the scheduler's choice among them. */
module Upgrades {
  import opened Results
  import opened Text
  import opened Decimals
  import opened Versions

  // ----- the second parser -----

  /** The numbers of all numeric parts between dots; the others are passed over. */
  function AllNumbers(parts: seq<string>): seq<nat> {
    if parts == [] then []
    else (if IsDigits(parts[0]) then [Parse(parts[0])] else []) + AllNumbers(parts[1..])
  }

  function SoftwareTuple(version: string): seq<nat> {
    AllNumbers(Parts(version, IsDot))
  }

  predicate AllDigits(parts: seq<string>) {
    forall i :: 0 <= i < |parts| ==> IsDigits(parts[i])
  }

  /** Numbers in decimal with single dots between them. */
  predicate DottedDecimal(version: string) {
    AllDigits(Parts(version, IsDot))
  }

  predicate DigitsAndDots(s: string) {
    forall i :: 0 <= i < |s| ==> IsDigit(s[i]) || IsDot(s[i])
  }

  lemma {:induction false} DottedIsPlain(s: string, part: string)
    requires AllDigits(PartsFrom(s, IsDot, part))
    ensures DigitsAndDots(s)
    ensures s == [] ==> part != []
    ensures s != [] && part == [] ==> IsDigit(s[0])
    decreases |s|
  {
    var parts := PartsFrom(s, IsDot, part);
    if s == [] {
      assert IsDigits(parts[0]);
    } else if IsDot(s[0]) {
      assert parts[0] == part && IsDigits(part);
      assert parts[1..] == Parts(s[1..], IsDot);
      assert forall i :: 0 <= i < |parts[1..]| ==> parts[1..][i] == parts[i + 1];
      DottedIsPlain(s[1..], []);
    } else {
      DottedIsPlain(s[1..], part + [s[0]]);
      FirstPartBegins(s[1..], part + [s[0]]);
      assert IsDigits(parts[0]) && parts[0][|part|] == s[0];
    }
  }

  lemma {:induction false} FirstPartBegins(s: string, part: string)
    ensures part <= PartsFrom(s, IsDot, part)[0]
    decreases |s|
  {
    if s != [] && !IsDot(s[0]) {
      FirstPartBegins(s[1..], part + [s[0]]);
    }
  }

  lemma {:induction false} SamePlainParts(s: string, part: string)
    requires DigitsAndDots(s)
    ensures PartsFrom(s, IsDot, part) == PartsFrom(s, IsSeparator, part)
    decreases |s|
  {
    if s != [] {
      SamePlainParts(s[1..], if IsDot(s[0]) then [] else part + [s[0]]);
    }
  }

  lemma {:induction false} SameNumbers(parts: seq<string>)
    requires AllDigits(parts)
    ensures Numbers(parts) == AllNumbers(parts) && |Numbers(parts)| == |parts|
  {
    if parts != [] {
      SameNumbers(parts[1..]);
    }
  }

  /** The two parsers agree on every dotted decimal. */
  lemma ParsersAgree(version: string)
    requires DottedDecimal(version)
    ensures Tuple(version) == SoftwareTuple(version)
  {
    DottedIsPlain(version, []);
    assert !IsSpace(version[0]) && !IsV(version[0]);
    assert !IsSpace(version[|version| - 1]);
    SamePlainParts(version, []);
    SameNumbers(Parts(version, IsDot));
  }

  // ----- the three choices -----

  /** The first of the greatest, as max() with a key picks it. */
  function BestFrom(versions: seq<string>, best: string): string
    decreases |versions|
  {
    if versions == [] then best
    else
      var first := versions[0];
      BestFrom(versions[1..], if Compare(SoftwareTuple(first), SoftwareTuple(best)) > 0 then first else best)
  }

  datatype Check = Check(latest: Option<string>, update: bool)

  /** The listed version that the second parser puts first. */
  function Pick(versions: seq<string>): string
    requires versions != []
  {
    BestFrom(versions[1..], versions[0])
  }

  /** The version check: the result that the second parser puts highest, compared with what is downloaded. */
  function CheckVersion(versions: seq<string>, current: Option<string>): Check {
    if versions == [] then Check(None, false)
    else
      var latest := Pick(versions);
      Check(Some(latest),
            latest != "" && latest != "unknown" && (current.None? || CompareVersions(latest, current.value) > 0))
  }

  predicate Newer(version: string, current: string) {
    version != "" && CompareVersions(version, current) > 0
  }

  function UpgradesOf(versions: seq<string>, current: string): seq<string> {
    if versions == [] then []
    else (if Newer(versions[0], current) then [versions[0]] else []) + UpgradesOf(versions[1..], current)
  }

  lemma UpgradesOfOne(v: string, current: string)
    ensures UpgradesOf([v], current) == if v != "" && CompareVersions(v, current) > 0 then [v] else []
  {
    hide CompareVersions;
    assert [v][1..] == [];
  }

  /** The upgrades stand in the order of the results. */
  lemma {:induction false} UpgradesConcat(a: seq<string>, b: seq<string>, current: string)
    ensures UpgradesOf(a + b, current) == UpgradesOf(a, current) + UpgradesOf(b, current)
    decreases |a|
  {
    hide Newer;
    if a == [] {
      assert a + b == b;
    } else {
      var one := if Newer(a[0], current) then [a[0]] else [];
      assert (a + b)[1..] == a[1..] + b;
      assert UpgradesOf(a + b, current) == one + UpgradesOf(a[1..] + b, current);
      assert UpgradesOf(a, current) == one + UpgradesOf(a[1..], current);
      hide UpgradesOf;
      UpgradesConcat(a[1..], b, current);
    }
  }

  lemma UpgradesStep(versions: seq<string>, current: string, i: nat, upgrades: seq<string>)
    requires i < |versions|
    ensures upgrades + UpgradesOf(versions[i..], current)
         == (if Newer(versions[i], current) then upgrades + [versions[i]] else upgrades)
            + UpgradesOf(versions[i + 1..], current)
  {
    hide Newer;
    assert versions[i..][0] == versions[i] && versions[i..][1..] == versions[i + 1..];
  }

  /** The search for upgrades: nothing unless something is downloaded. */
  method FindUpgrades(versions: seq<string>, current: Option<string>) returns (upgrades: seq<string>)
    ensures upgrades == if current.None? || current.value == "" then [] else UpgradesOf(versions, current.value)
  {
    if current.None? || current.value == "" {
      return [];
    }
    upgrades := [];
    assert versions[0..] == versions && UpgradesOf([], current.value) == [];
    hide *;
    for i := 0 to |versions|
      invariant upgrades + UpgradesOf(versions[i..], current.value) == UpgradesOf(versions, current.value)
    {
      UpgradesStep(versions, current.value, i, upgrades);
      if Newer(versions[i], current.value) {
        upgrades := upgrades + [versions[i]];
      }
    }
  }

  datatype Pin = Pin(mode: string, value: string)

  /** Whether a version pin lets a version through. */
  predicate PinAllows(version: string, pin: Option<Pin>) {
    if pin.None? then true
    else
      var mode, value := Lower(pin.value.mode), Strip(pin.value.value);
      if mode == "" || mode == "disabled" || value == "" then true
      else if mode == "exact" then version == value
      else if mode == "major" then Parts(version, IsDot)[0] == value
      else true
  }

  lemma ModeMeans(mode: string)
    ensures SameText(mode, "exact") <==> Lower(mode) == "exact"
    ensures SameText(mode, "major") <==> Lower(mode) == "major"
    ensures SameText(mode, "exact") ==> !SameText(mode, "major")
    ensures Lower(mode) in {"", "disabled"} ==> Lower(mode) !in {"exact", "major"}
  {
    assert Lower("exact") == "exact" && Lower("major") == "major";
    CaseMeans(mode, "exact");
    CaseMeans(mode, "major");
    assert "disabled"[0] == 'd' && "exact"[0] == 'e' && "major"[0] == 'm';
    hide Lower, SameText;
  }

  lemma BeforeDot(major: string, rest: string)
    requires forall i :: 0 <= i < |major| ==> major[i] != '.'
    ensures Parts(if rest == "" then major else major + "." + rest, IsDot)[0] == major
  {
    var tail := if rest == "" then "" else "." + rest;
    PartsOfPlain(major, tail, IsDot, []);
    assert [] + major == major && (if rest == "" then major else major + "." + rest) == major + tail;
  }

  /** In plain words: an exact pin lets through the version that it names, a major pin those that have its
      value before the first dot; any other pin, and one without a value, lets everything through. */
  lemma PinMeans(version: string, pin: Pin, major: string, rest: string)
    requires forall i :: 0 <= i < |major| ==> major[i] != '.'
    requires version == if rest == "" then major else major + "." + rest
    ensures PinAllows(version, None)
    ensures PinAllows(version, Some(pin))
       <==> || Strip(pin.value) == ""
            || (SameText(pin.mode, "exact") && version == Strip(pin.value))
            || (SameText(pin.mode, "major") && major == Strip(pin.value))
            || !(SameText(pin.mode, "exact") || SameText(pin.mode, "major"))
  {
    ModeMeans(pin.mode);
    BeforeDot(major, rest);
    hide Lower, SameText, Strip, Parts;
  }

  function FirstAllowed(versions: seq<string>, pin: Option<Pin>): Option<string> {
    if versions == [] then None
    else if PinAllows(versions[0], pin) then Some(versions[0])
    else FirstAllowed(versions[1..], pin)
  }

  /** The scheduler's pick: it stops at the first newer version that the pin lets through, which
      is the first of the upgrades that passes the pin. */
  method SchedulerPick(versions: seq<string>, current: string, pin: Option<Pin>) returns (pick: Option<string>)
    ensures pick == if current == "" then None else FirstAllowed(UpgradesOf(versions, current), pin)
  {
    pick := None;
    hide Newer, PinAllows;
    if current == "" {
      return;
    }
    assert versions[0..] == versions;
    for i := 0 to |versions|
      invariant pick == None
      invariant FirstAllowed(UpgradesOf(versions[i..], current), pin)
             == FirstAllowed(UpgradesOf(versions, current), pin)
    {
      assert versions[i..][1..] == versions[i + 1..];
      var rest := UpgradesOf(versions[i + 1..], current);
      assert ([versions[i]] + rest)[1..] == rest && [] + rest == rest;
      if Newer(versions[i], current) {
        if !PinAllows(versions[i], pin) {
          continue;
        }
        pick := Some(versions[i]);
        break;
      }
    }
  }

  // ----- how they relate -----

  /** It may be queued as an upgrade: named, above what is downloaded, and let through. */
  predicate MayUpgrade(version: string, current: string, pin: Option<Pin>) {
    version != "" && CompareVersions(version, current) > 0 && PinAllows(version, pin)
  }

  lemma PickStep(versions: seq<string>, current: string, pin: Option<Pin>)
    requires versions != []
    ensures FirstAllowed(UpgradesOf(versions, current), pin)
         == if MayUpgrade(versions[0], current, pin) then Some(versions[0])
            else FirstAllowed(UpgradesOf(versions[1..], current), pin)
  {
    var v, rest := versions[0], UpgradesOf(versions[1..], current);
    assert UpgradesOf(versions, current) == if Newer(v, current) then [v] + rest else [] + rest;
    assert MayUpgrade(v, current, pin) <==> Newer(v, current) && PinAllows(v, pin);
    hide CompareVersions, PinAllows, Newer, MayUpgrade, UpgradesOf;
    assert ([v] + rest)[1..] == rest && [] + rest == rest;
  }

  /** The pick is the first of the results that may be queued; none is picked if none may. */
  lemma {:induction false} PickIsFirst(versions: seq<string>, current: string, pin: Option<Pin>)
    ensures var pick := FirstAllowed(UpgradesOf(versions, current), pin);
            && (pick.None? <==> forall i :: 0 <= i < |versions| ==> !MayUpgrade(versions[i], current, pin))
            && (forall i :: 0 <= i < |versions| && MayUpgrade(versions[i], current, pin)
                            && (forall j :: 0 <= j < i ==> !MayUpgrade(versions[j], current, pin))
                  ==> pick == Some(versions[i]))
  {
    hide MayUpgrade;
    if versions != [] {
      PickStep(versions, current, pin);
      PickIsFirst(versions[1..], current, pin);
      hide FirstAllowed, UpgradesOf;
      assert forall i :: 0 < i < |versions| ==> versions[i] == versions[1..][i - 1];
    }
  }

  /** Above all that stand before it, and below none. */
  predicate IsFirstHighest(tuples: seq<seq<nat>>, k: nat) {
    && k < |tuples|
    && (forall i :: 0 <= i < k ==> Compare(tuples[k], tuples[i]) > 0)
    && (forall i :: k < i < |tuples| ==> Compare(tuples[k], tuples[i]) >= 0)
  }

  /** Where the elements of a list stand that has one more in front. */
  lemma OneMoreInFront(a: seq<nat>, b: seq<nat>, next: seq<nat>, rest: seq<seq<nat>>)
    ensures var few, all := [next] + rest, [a, b] + rest;
            && all[0] == a && all[1] == b && few[0] == next
            && |all| == |few| + 1
            && forall i :: 1 <= i < |few| ==> all[i + 1] == few[i]
    ensures forall i :: 2 <= i < 2 + |rest| ==> ([a, b] + rest)[i] == ([next] + rest)[i - 1]
  {
  }

  /** One of the first two, and then whichever is first among the highest of it and the rest. */
  lemma HighestOfMore(a: seq<nat>, b: seq<nat>, rest: seq<seq<nat>>, k: nat)
    requires IsFirstHighest([if Compare(b, a) > 0 then b else a] + rest, k)
    ensures IsFirstHighest([a, b] + rest, if k > 0 then k + 1 else if Compare(b, a) > 0 then 1 else 0)
  {
    var next := if Compare(b, a) > 0 then b else a;
    CompareFlips(a, b);
    CompareFlips(next, next);
    OneMoreInFront(a, b, next, rest);
    var few, all := [next] + rest, [a, b] + rest;
    if k > 0 {
      HighestLater(few, all, next, k);
    } else {
      HighestNow(few, all, if Compare(b, a) > 0 then 1 else 0);
    }
  }

  lemma HighestNow(few: seq<seq<nat>>, all: seq<seq<nat>>, at: nat)
    requires IsFirstHighest(few, 0) && |all| == |few| + 1
    requires at < 2 && all[at] == few[0]
    requires if at == 0 then Compare(all[0], all[1]) >= 0 else Compare(all[1], all[0]) > 0
    requires forall i :: 2 <= i < |all| ==> all[i] == few[i - 1]
    ensures IsFirstHighest(all, at)
  {
    hide Compare;
  }

  lemma HighestLater(few: seq<seq<nat>>, all: seq<seq<nat>>, next: seq<nat>, k: nat)
    requires k > 0 && IsFirstHighest(few, k) && |all| == |few| + 1
    requires few[0] == next && Compare(next, all[0]) >= 0 && Compare(next, all[1]) >= 0
    requires forall i :: 2 <= i < |all| ==> all[i] == few[i - 1]
    ensures IsFirstHighest(all, k + 1)
  {
    CompareChains(few[k], next, all[0]);
    CompareChains(few[k], next, all[1]);
    hide Compare;
  }

  function Tuples(versions: seq<string>): seq<seq<nat>> {
    seq(|versions|, i requires 0 <= i < |versions| => SoftwareTuple(versions[i]))
  }

  lemma TuplesCons(version: string, versions: seq<string>)
    ensures Tuples([version] + versions) == [SoftwareTuple(version)] + Tuples(versions)
  {
  }

  lemma TuplesOfTwo(best: string, versions: seq<string>)
    requires versions != []
    ensures Tuples([best] + versions) == [SoftwareTuple(best), SoftwareTuple(versions[0])] + Tuples(versions[1..])
  {
    hide SoftwareTuple;
  }

  lemma BestStep(versions: seq<string>, best: string)
    requires versions != []
    ensures var next := if Compare(SoftwareTuple(versions[0]), SoftwareTuple(best)) > 0 then versions[0] else best;
            BestFrom(versions, best) == BestFrom(versions[1..], next)
    ensures BestFrom([], best) == best
  {
  }

  lemma {:induction false} BestIsFirst(versions: seq<string>, best: string) returns (k: nat)
    ensures k <= |versions| && BestFrom(versions, best) == ([best] + versions)[k]
    ensures IsFirstHighest(Tuples([best] + versions), k)
    decreases |versions|
  {
    k := 0;
    if versions != [] {
      var first, rest := versions[0], versions[1..];
      var higher := Compare(SoftwareTuple(first), SoftwareTuple(best)) > 0;
      var next := if higher then first else best;
      hide *;
      BestStep(versions, best);
      k := BestIsFirst(rest, next);
      TuplesCons(next, rest);
      TuplesOfTwo(best, versions);
      HighestOfMore(SoftwareTuple(best), SoftwareTuple(first), Tuples(rest), k);
      var at := if k > 0 then k + 1 else if higher then 1 else 0;
      assert ([best] + versions)[at] == ([next] + rest)[k];
      k := at;
    }
  }

  /** The check's pick is the first of the highest, as the second parser reads them. */
  lemma PickIsFirstHighest(versions: seq<string>)
    requires versions != []
    ensures exists k :: 0 <= k < |versions| && versions[k] == Pick(versions)
                        && (forall i :: 0 <= i < k ==>
                              GoesBefore(SoftwareTuple(versions[i]), SoftwareTuple(versions[k])))
                        && (forall i :: 0 <= i < |versions| ==>
                              !GoesBefore(SoftwareTuple(versions[k]), SoftwareTuple(versions[i])))
  {
    var k := BestIsFirst(versions[1..], versions[0]);
    assert [versions[0]] + versions[1..] == versions;
    assert forall i :: 0 <= i < |versions| ==> Tuples(versions)[i] == SoftwareTuple(versions[i]);
    assert |Tuples(versions)| == |versions| && versions[k] == Pick(versions);
    hide SoftwareTuple, Compare, GoesBefore, Pick, Tuples;
    forall i | 0 <= i < |versions|
      ensures i < k ==> GoesBefore(SoftwareTuple(versions[i]), SoftwareTuple(versions[k]))
      ensures !GoesBefore(SoftwareTuple(versions[k]), SoftwareTuple(versions[i]))
    {
      CompareMeans(SoftwareTuple(versions[k]), SoftwareTuple(versions[i]));
      CompareMeans(SoftwareTuple(versions[i]), SoftwareTuple(versions[k]));
      CompareFlips(SoftwareTuple(versions[i]), SoftwareTuple(versions[k]));
    }
  }

  lemma {:induction false} UpgradesAreNewer(versions: seq<string>, current: string, v: string)
    ensures v in UpgradesOf(versions, current) <==> v in versions && Newer(v, current)
  {
    if versions != [] {
      UpgradesAreNewer(versions[1..], current, v);
      assert versions == [versions[0]] + versions[1..];
    }
  }

  lemma {:induction false} BestIsListed(versions: seq<string>, best: string)
    ensures BestFrom(versions, best) == best || BestFrom(versions, best) in versions
    decreases |versions|
  {
    if versions != [] {
      var first := versions[0];
      BestIsListed(versions[1..], if Compare(SoftwareTuple(first), SoftwareTuple(best)) > 0 then first else best);
    }
  }

  lemma {:induction false} BestIsHighest(versions: seq<string>, best: string, v: string)
    requires v == best || v in versions
    ensures Compare(SoftwareTuple(BestFrom(versions, best)), SoftwareTuple(v)) >= 0
    decreases |versions|
  {
    var top := BestFrom(versions, best);
    if versions == [] {
      CompareFlips(SoftwareTuple(v), SoftwareTuple(v));
    } else {
      var first := versions[0];
      var next := if Compare(SoftwareTuple(first), SoftwareTuple(best)) > 0 then first else best;
      CompareFlips(SoftwareTuple(first), SoftwareTuple(best));
      CompareFlips(SoftwareTuple(next), SoftwareTuple(next));
      assert versions == [first] + versions[1..];
      if v in versions[1..] {
        BestIsHighest(versions[1..], next, v);
      } else {
        BestIsHighest(versions[1..], next, next);
        CompareChains(SoftwareTuple(top), SoftwareTuple(next), SoftwareTuple(v));
      }
    }
  }

  lemma UnparsedIsNotNewer(current: string)
    ensures CompareVersions("unknown", current) <= 0 && CompareVersions("", current) <= 0
  {
    assert Parts(StripV(Strip("unknown")), IsSeparator)[0][0] == 'u' by {
      assert Strip("unknown") == "unknown";
      PartsOfPlain("unknown", [], IsSeparator, []);
      assert "unknown" + [] == "unknown" && [] + "unknown" == "unknown";
    }
    VersionsAreOrdered("unknown", current, current);
    VersionsAreOrdered("", current, current);
  }

  /** For every list, an update is reported exactly when the picked version is newer, and then
      there is an upgrade to be found. */
  lemma UpdateMeansUpgrade(versions: seq<string>, current: string)
    requires versions != []
    ensures var check := CheckVersion(versions, Some(current));
            && check.latest.Some? && check.latest.value in versions
            && (check.update <==> Newer(check.latest.value, current))
            && (check.update ==> UpgradesOf(versions, current) != [])
  {
    var latest := BestFrom(versions[1..], versions[0]);
    BestIsListed(versions[1..], versions[0]);
    UnparsedIsNotNewer(current);
    UpgradesAreNewer(versions, current, latest);
  }

  /** Whatever release is downloaded, the version check reports an update exactly when the search for
      upgrades finds one. */
  ghost predicate Agrees(versions: seq<string>) {
    forall current :: current != "" ==>
      (CheckVersion(versions, Some(current)).update <==> UpgradesOf(versions, current) != [])
  }

  /** No listed version is above it. */
  predicate PickIsMaximum(versions: seq<string>) {
    versions == [] || forall v :: v in versions ==> CompareVersions(Pick(versions), v) >= 0
  }

  lemma ZeroIsLowest(v: string)
    ensures CompareVersions("", v) <= 0 && CompareVersions("0", v) <= 0
    ensures CompareVersions(v, "0") == CompareVersions(v, "")
  {
    assert Strip("0") == "0" && StripV("0") == "0" && Strip("") == "";
    PartsOfPlain("0", [], IsSeparator, []);
    assert "0" + [] == "0" && [] + "0" == "0" && ["0"][1..] == [];
    assert IsDigits("0") && "0"[..0] == [] && Parse("0") == 0;
    assert Tuple("0") == [0] && Tuple("") == [0];
    hide Tuple;
    VersionsAreOrdered("", v, v);
    VersionsAreOrdered("0", v, v);
    VersionsAreOrdered(v, "0", v);
  }

  lemma SomeUpgrade(versions: seq<string>, current: string, v: string)
    requires v in versions && Newer(v, current)
    ensures UpgradesOf(versions, current) != []
  {
    UpgradesAreNewer(versions, current, v);
  }

  lemma MaximumAgrees(versions: seq<string>, current: string)
    requires PickIsMaximum(versions)
    ensures CheckVersion(versions, Some(current)).update <==> UpgradesOf(versions, current) != []
  {
    if versions != [] {
      UpdateMeansUpgrade(versions, current);
      var latest := CheckVersion(versions, Some(current)).latest.value;
      var upgrades := UpgradesOf(versions, current);
      if upgrades != [] {
        var v := upgrades[0];
        UpgradesAreNewer(versions, current, v);
        VersionsAreOrdered(latest, v, current);
        UnparsedIsNotNewer(current);
      }
    }
  }

  /** Where a listed version is above the pick, there is a downloaded version for which they differ. */
  lemma HigherIsMissed(versions: seq<string>, v: string) returns (current: string)
    requires v in versions && CompareVersions(Pick(versions), v) < 0
    ensures current != ""
    ensures !CheckVersion(versions, Some(current)).update && UpgradesOf(versions, current) != []
  {
    var latest := Pick(versions);
    current := if latest == "" then "0" else latest;
    UpdateMeansUpgrade(versions, current);
    ZeroIsLowest(v);
    VersionsAreOrdered(latest, v, v);
    VersionsAreOrdered(latest, latest, latest);
    ZeroIsLowest(latest);
    SomeUpgrade(versions, current, v);
  }

  /** The version check and the search for upgrades agree exactly on the lists whose pick is a maximum. */
  lemma AgreeExactly(versions: seq<string>)
    ensures Agrees(versions) <==> PickIsMaximum(versions)
  {
    if PickIsMaximum(versions) {
      forall current | current != ""
        ensures CheckVersion(versions, Some(current)).update <==> UpgradesOf(versions, current) != []
      {
        MaximumAgrees(versions, current);
      }
    } else {
      var v :| v in versions && CompareVersions(Pick(versions), v) < 0;
      var current := HigherIsMissed(versions, v);
    }
  }

  /** With nothing downloaded the search finds nothing, and the check reports every pick that has a name. */
  lemma NothingDownloaded(versions: seq<string>)
    ensures CheckVersion(versions, None).update <==> versions != [] && Pick(versions) !in {"", "unknown"}
    ensures CheckVersion(versions, Some("")).update <==> versions != [] && Newer(Pick(versions), "")
  {
    UnparsedIsNotNewer("");
    hide CompareVersions;
  }

  ghost predicate AllDotted(versions: seq<string>) {
    forall v :: v in versions ==> DottedDecimal(v)
  }

  lemma DottedPickIsMaximum(versions: seq<string>)
    requires AllDotted(versions)
    ensures PickIsMaximum(versions)
  {
    if versions != [] {
      var latest := Pick(versions);
      BestIsListed(versions[1..], versions[0]);
      assert latest in versions by {
        assert versions == [versions[0]] + versions[1..];
      }
      ParsersAgree(latest);
      forall v | v in versions
        ensures CompareVersions(latest, v) >= 0
      {
        assert versions == [versions[0]] + versions[1..];
        BestIsHighest(versions[1..], versions[0], v);
        ParsersAgree(v);
      }
    }
  }

  /** So on dotted decimals they agree, and the pick is a version that none of the results exceeds. */
  lemma CheckAgreesWithUpgrades(versions: seq<string>, current: string)
    requires AllDotted(versions)
    ensures Agrees(versions)
    ensures var check := CheckVersion(versions, Some(current));
            && (check.update <==> UpgradesOf(versions, current) != [])
            && (check.latest.None? <==> versions == [])
            && (check.latest.Some? ==>
                  && check.latest.value in versions
                  && forall v :: v in versions ==> CompareVersions(check.latest.value, v) >= 0)
  {
    DottedPickIsMaximum(versions);
    AgreeExactly(versions);
    MaximumAgrees(versions, current);
    if versions != [] {
      UpdateMeansUpgrade(versions, current);
    }
  }

  lemma TwoParts(a: string, c: char, b: string, sep: char -> bool)
    requires (forall i :: 0 <= i < |a| ==> !sep(a[i])) && (forall i :: 0 <= i < |b| ==> !sep(b[i])) && sep(c)
    ensures Parts(a + [c] + b, sep) == [a, b]
  {
    assert a + [c] + b == a + ([c] + b) && ([c] + b)[1..] == b;
    PartsOfPlain(a, [c] + b, sep, []);
    PartsOfPlain(b, [], sep, []);
    assert [] + a == a && [] + b == b && b + [] == b;
  }

  lemma TwoNumbers(vs: string, a: nat, b: nat)
    requires a < 10 && b < 10 && AllV(vs)
    ensures Tuple(vs + [DigitChar(a), '.', DigitChar(b)]) == [a, b]
  {
    ParseUndoesPrint([], vs, [a, b], ".", [], []);
    assert [a, b][1..] == [b] && [b][1..] == [];
    assert PrintFrom([], []) == [] && "."[1..] == [];
    assert PrintFrom([b], ".") == ['.'] + Print(b) + PrintFrom([], []);
    assert PrintNumbers([a, b], ".") + [] == [DigitChar(a), '.', DigitChar(b)];
    var s := vs + [DigitChar(a), '.', DigitChar(b)];
    assert [] + s + [] == s;
  }

  lemma SoftwareReadsOne()
    ensures SoftwareTuple("1.0") == [1, 0]
  {
    TwoParts("1", '.', "0", IsDot);
    assert "1" + ['.'] + "0" == "1.0";
    assert IsDigits("1") && IsDigits("0");
    assert DottedDecimal("1.0");
    ParsersAgree("1.0");
    hide Tuple, SoftwareTuple;
    TwoNumbers("", 1, 0);
    assert "" + [DigitChar(1), '.', DigitChar(0)] == "1.0";
  }

  lemma SoftwareDropsMajor()
    ensures SoftwareTuple("v2.0") == [0]
  {
    TwoParts("v2", '.', "0", IsDot);
    assert "v2" + ['.'] + "0" == "v2.0";
    assert !IsDigits("v2") by {
      assert "v2"[0] == 'v';
    }
    assert ["v2", "0"][1..] == ["0"] && ["0"][1..] == [];
    assert "0"[..0] == [];
  }

  lemma MissedPick()
    ensures Pick(["v2.0", "1.0"]) == "1.0"
  {
    SoftwareReadsOne();
    SoftwareDropsMajor();
    hide SoftwareTuple;
    assert Compare([1, 0], [0]) > 0;
    assert ["v2.0", "1.0"][1..] == ["1.0"] && ["1.0"][1..] == [];
  }

  lemma MissedOrder()
    ensures CompareVersions("v2.0", "1.0") == 1 && CompareVersions("1.0", "v2.0") == -1
    ensures CompareVersions("1.0", "1.0") == 0
  {
    TwoNumbers("v", 2, 0);
    TwoNumbers("", 1, 0);
    assert "v" + [DigitChar(2), '.', DigitChar(0)] == "v2.0" && "" + [DigitChar(1), '.', DigitChar(0)] == "1.0";
    hide Tuple;
    assert Compare([2, 0], [1, 0]) == 1;
    CompareFlips([1, 0], [2, 0]);
    CompareFlips([1, 0], [1, 0]);
  }

  /** With other spellings the pick need not be a maximum: a leading v makes the second parser drop the
      major number, and the check misses the upgrade. */
  lemma CheckMissesUpgrade()
    ensures !PickIsMaximum(["v2.0", "1.0"]) && !Agrees(["v2.0", "1.0"])
    ensures !CheckVersion(["v2.0", "1.0"], Some("1.0")).update
    ensures UpgradesOf(["v2.0", "1.0"], "1.0") == ["v2.0"]
  {
    var vs := ["v2.0", "1.0"];
    MissedPick();
    MissedOrder();
    hide CompareVersions, Pick;
    assert vs[0] in vs && vs[1..] == ["1.0"] && vs[1..][1..] == [];
    assert UpgradesOf(vs[1..], "1.0") == [];
    AgreeExactly(vs);
  }
}
