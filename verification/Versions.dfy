/** Version strings: how they are read, how they compare, and that reading undoes printing. */
module Versions {
  import opened Text
  import opened Decimals

  // ----- parsing -----

  predicate IsSeparator(c: char) {
    c == '.' || c == '-' || c == '_'
  }

  predicate IsDot(c: char) {
    c == '.'
  }

  predicate IsV(c: char) {
    c == 'v' || c == 'V'
  }

  function StripV(s: string): string {
    if s != [] && IsV(s[0]) then StripV(s[1..]) else s
  }

  /** The parts between separators, with `part` already read; there is always at least one. */
  function PartsFrom(s: string, sep: char -> bool, part: string): (parts: seq<string>)
    ensures parts != []
    decreases |s|
  {
    if s == [] then [part]
    else if sep(s[0]) then [part] + PartsFrom(s[1..], sep, [])
    else PartsFrom(s[1..], sep, part + [s[0]])
  }

  function Parts(s: string, sep: char -> bool): seq<string> {
    PartsFrom(s, sep, [])
  }

  /** The numbers of the leading numeric parts. */
  function Numbers(parts: seq<string>): seq<nat> {
    if parts == [] || !IsDigits(parts[0]) then [] else [Parse(parts[0])] + Numbers(parts[1..])
  }

  function OrZero(t: seq<nat>): (r: seq<nat>)
    ensures r != []
  {
    if t == [] then [0] else t
  }

  function Tuple(version: string): (t: seq<nat>)
    ensures t != []
  {
    OrZero(Numbers(Parts(StripV(Strip(version)), IsSeparator)))
  }

  method VersionTuple(version: string) returns (t: seq<nat>)
    ensures t == Tuple(version)
  {
    var stripped := StripV(Strip(version));
    var parts := Parts(stripped, IsSeparator);
    t := [];
    var i := 0;
    assert parts[0..] == parts;
    while i < |parts|
      invariant 0 <= i <= |parts|
      invariant t + Numbers(parts[i..]) == Numbers(parts)
    {
      assert parts[i..][1..] == parts[i + 1..];
      if IsDigits(parts[i]) {
        t := t + [Parse(parts[i])];
      } else {
        break;
      }
      i := i + 1;
    }
    t := if t != [] then t else [0];
  }

  // ----- comparing -----

  /** The order of tuples: by the first difference, a prefix before what it begins. */
  function Compare(a: seq<nat>, b: seq<nat>): int
    decreases |a|
  {
    if a == [] then (if b == [] then 0 else -1)
    else if b == [] then 1
    else if a[0] > b[0] then 1
    else if a[0] < b[0] then -1
    else Compare(a[1..], b[1..])
  }

  function CompareVersions(a: string, b: string): int {
    Compare(Tuple(a), Tuple(b))
  }

  lemma {:induction false} CompareFlips(a: seq<nat>, b: seq<nat>)
    ensures Compare(a, b) == -Compare(b, a)
    ensures Compare(a, b) == 0 <==> a == b
    ensures -1 <= Compare(a, b) <= 1
    decreases |a|
  {
    if a != [] && b != [] {
      CompareFlips(a[1..], b[1..]);
      assert a == [a[0]] + a[1..] && b == [b[0]] + b[1..];
    }
  }

  lemma {:induction false} CompareChains(a: seq<nat>, b: seq<nat>, c: seq<nat>)
    requires Compare(a, b) >= 0 && Compare(b, c) >= 0
    ensures Compare(a, c) >= 0
    ensures Compare(a, b) > 0 || Compare(b, c) > 0 ==> Compare(a, c) > 0
    decreases |a|
  {
    if a != [] && b != [] && c != [] && a[0] == b[0] && b[0] == c[0] {
      CompareChains(a[1..], b[1..], c[1..]);
    }
  }

  /** `a` goes before `b`: it has the smaller number where they first differ, or ends where they do not. */
  predicate GoesBefore(a: seq<nat>, b: seq<nat>) {
    exists i :: 0 <= i <= |a| && i < |b| && a[..i] == b[..i] && (i == |a| || a[i] < b[i])
  }

  /** The comparison is the lexicographic order. */
  lemma {:induction false} CompareMeans(a: seq<nat>, b: seq<nat>)
    ensures Compare(a, b) == if a == b then 0 else if GoesBefore(a, b) then -1 else 1
    ensures GoesBefore(a, b) ==> a != b && !GoesBefore(b, a)
    decreases |a|
  {
    if a != [] && b != [] && a[0] == b[0] {
      CompareMeans(a[1..], b[1..]);
      assert a == [a[0]] + a[1..] && b == [b[0]] + b[1..];
      BeforeCons(a, b);
      BeforeCons(b, a);
    } else {
      assert a[..0] == b[..0];
    }
  }

  lemma BeforeCons(a: seq<nat>, b: seq<nat>)
    requires a != [] && b != [] && a[0] == b[0]
    ensures GoesBefore(a, b) <==> GoesBefore(a[1..], b[1..])
  {
    if i :| 0 <= i <= |a| && i < |b| && a[..i] == b[..i] && (i == |a| || a[i] < b[i]) {
      assert a[1..][..i - 1] == a[..i][1..] && b[1..][..i - 1] == b[..i][1..];
    }
    if i :| 0 <= i <= |a[1..]| && i < |b[1..]| && a[1..][..i] == b[1..][..i]
            && (i == |a[1..]| || a[1..][i] < b[1..][i]) {
      assert a[..i + 1] == [a[0]] + a[1..][..i] && b[..i + 1] == [b[0]] + b[1..][..i];
    }
  }

  /** One version is above another exactly if its numbers come later. */
  lemma VersionIsAbove(a: string, b: string)
    ensures CompareVersions(a, b) == 1 <==> GoesBefore(Tuple(b), Tuple(a))
    ensures CompareVersions(a, b) == -1 <==> GoesBefore(Tuple(a), Tuple(b))
  {
    CompareMeans(Tuple(a), Tuple(b));
    CompareMeans(Tuple(b), Tuple(a));
    CompareFlips(Tuple(a), Tuple(b));
  }

  /** The comparison of versions is total, antisymmetric in sign and transitive; versions that
      compare equal are those that parse equal, and an unparseable one is lowest. */
  lemma VersionsAreOrdered(a: string, b: string, c: string)
    ensures CompareVersions(a, b) in {-1, 0, 1} && CompareVersions(a, b) == -CompareVersions(b, a)
    ensures CompareVersions(a, b) == 0 <==> Tuple(a) == Tuple(b)
    ensures CompareVersions(a, b) >= 0 && CompareVersions(b, c) >= 0 ==> CompareVersions(a, c) >= 0
    ensures CompareVersions(a, b) > 0 && CompareVersions(b, c) >= 0 ==> CompareVersions(a, c) > 0
    ensures CompareVersions(a, b) >= 0 && CompareVersions(b, c) > 0 ==> CompareVersions(a, c) > 0
    ensures Tuple(a) == [0] ==> CompareVersions(a, b) <= 0
  {
    CompareFlips(Tuple(a), Tuple(b));
    if CompareVersions(a, b) >= 0 && CompareVersions(b, c) >= 0 {
      CompareChains(Tuple(a), Tuple(b), Tuple(c));
    }
    if Tuple(a) == [0] {
      assert Tuple(a)[1..] == [];
    }
  }

  // ----- printing -----

  /** The numbers in decimal, each after the first behind its separator. */
  function PrintFrom(nums: seq<nat>, seps: string): string
    requires |nums| == |seps|
  {
    if nums == [] then [] else [seps[0]] + Print(nums[0]) + PrintFrom(nums[1..], seps[1..])
  }

  function PrintNumbers(nums: seq<nat>, seps: string): string
    requires nums != [] && |seps| == |nums| - 1
  {
    Print(nums[0]) + PrintFrom(nums[1..], seps)
  }

  predicate AllSeparators(seps: string) {
    forall i :: 0 <= i < |seps| ==> seps[i] in {'.', '-', '_'}
  }

  predicate AllV(s: string) {
    forall i :: 0 <= i < |s| ==> s[i] in {'v', 'V'}
  }

  lemma WhatSeparates(c: char)
    ensures IsSeparator(c) <==> c in {'.', '-', '_'}
    ensures IsV(c) <==> c in {'v', 'V'}
  {
  }

  /** Without a digit in front, behind spaces and v's, a version reads as zero. */
  lemma UnreadableIsZero(lead: string, vs: string, body: string, trail: string)
    requires AllSpace(lead) && AllSpace(trail) && AllV(vs)
    requires body != [] && !IsSpace(body[0]) && !IsSpace(body[|body| - 1])
    requires !('0' <= body[0] <= '9') && body[0] !in {'v', 'V'}
    ensures Tuple(lead + (vs + body) + trail) == [0]
  {
    var whole := vs + body;
    assert whole[0] == (if vs == [] then body[0] else vs[0]) && whole[|whole| - 1] == body[|body| - 1];
    StripPadded(lead, whole, trail);
    StripVs(vs, body);
    FirstPart(body);
  }

  lemma FirstPart(body: string)
    requires body != [] && !IsDigit(body[0])
    ensures !IsDigits(Parts(body, IsSeparator)[0])
  {
    if !IsSeparator(body[0]) {
      assert [] + [body[0]] == [body[0]];
      PartBegins(body[1..], [body[0]]);
      assert Parts(body, IsSeparator)[0][0] == body[0];
    }
  }

  lemma {:induction false} PartBegins(s: string, part: string)
    ensures part <= PartsFrom(s, IsSeparator, part)[0]
    decreases |s|
  {
    if s != [] && !IsSeparator(s[0]) {
      PartBegins(s[1..], part + [s[0]]);
    }
  }

  /** What may follow the numbers: nothing, or a separator and a part that is not a number. */
  predicate ValidTail(tail: string) {
    tail == []
    || (IsSeparator(tail[0]) && !IsSpace(tail[|tail| - 1]) && !IsDigits(Parts(tail[1..], IsSeparator)[0]))
  }

  lemma {:induction false} PartsOfPlain(a: string, rest: string, sep: char -> bool, part: string)
    requires forall i :: 0 <= i < |a| ==> !sep(a[i])
    ensures PartsFrom(a + rest, sep, part) == PartsFrom(rest, sep, part + a)
    decreases |a|
  {
    if a == [] {
      assert a + rest == rest && part + a == part;
    } else {
      assert (a + rest)[1..] == a[1..] + rest;
      PartsOfPlain(a[1..], rest, sep, part + [a[0]]);
      assert part + [a[0]] + a[1..] == part + a;
    }
  }

  lemma PrintedHead(n: nat, rest: string)
    ensures Parts(Print(n) + rest, IsSeparator) == PartsFrom(rest, IsSeparator, Print(n))
    ensures IsDigits(Print(n)) && Parse(Print(n)) == n
  {
    var d := Print(n);
    ParsePrint(n);
    assert forall i :: 0 <= i < |d| ==> IsDigit(d[i]) && !IsSeparator(d[i]);
    PartsOfPlain(d, rest, IsSeparator, []);
    assert [] + d == d;
  }

  lemma PartsAtSeparator(c: char, more: string, part: string)
    requires IsSeparator(c)
    ensures PartsFrom([c] + more, IsSeparator, part) == [part] + Parts(more, IsSeparator)
  {
    assert ([c] + more)[1..] == more;
  }

  lemma {:induction false} NumbersOfPrinted(nums: seq<nat>, seps: string, tail: string, n: nat)
    requires |nums| == |seps| && AllSeparators(seps) && ValidTail(tail)
    ensures Numbers(Parts(Print(n) + (PrintFrom(nums, seps) + tail), IsSeparator)) == [n] + nums
    decreases |nums|
  {
    var d := Print(n);
    PrintedHead(n, PrintFrom(nums, seps) + tail);
    if nums == [] {
      assert PrintFrom(nums, seps) + tail == tail;
      AfterNumbers(tail, d);
    } else {
      hide Print, IsDigits, IsSeparator, Numbers;
      var more := Print(nums[0]) + (PrintFrom(nums[1..], seps[1..]) + tail);
      assert PrintFrom(nums, seps) + tail == [seps[0]] + more;
      PartsAtSeparator(seps[0], more, d);
      NumbersOfPrinted(nums[1..], seps[1..], tail, nums[0]);
      NumbersCons(d, Parts(more, IsSeparator));
      assert [nums[0]] + nums[1..] == nums;
    }
  }

  lemma NumbersCons(d: string, parts: seq<string>)
    ensures Numbers([d] + parts) == if IsDigits(d) then [Parse(d)] + Numbers(parts) else []
  {
    assert ([d] + parts)[1..] == parts;
  }

  lemma AfterNumbers(tail: string, d: string)
    requires ValidTail(tail) && IsDigits(d)
    ensures Numbers(PartsFrom(tail, IsSeparator, d)) == [Parse(d)]
  {
    if tail == [] {
      assert PartsFrom(tail, IsSeparator, d) == [d] + [];
      NumbersCons(d, []);
    } else {
      NumbersCons(d, Parts(tail[1..], IsSeparator));
    }
  }

  lemma {:induction false} StripVs(vs: string, body: string)
    requires AllV(vs) && body != [] && !IsV(body[0])
    ensures StripV(vs + body) == body
    decreases |vs|
  {
    if vs == [] {
      assert vs + body == body;
    } else {
      assert (vs + body)[1..] == vs[1..] + body;
      StripVs(vs[1..], body);
    }
  }

  lemma {:induction false} PrintedEnds(nums: seq<nat>, seps: string)
    requires |nums| == |seps| && nums != []
    ensures var s := PrintFrom(nums, seps); s != [] && IsDigit(s[|s| - 1])
    decreases |nums|
  {
    ParsePrint(nums[0]);
    if |nums| > 1 {
      PrintedEnds(nums[1..], seps[1..]);
    }
  }

  lemma BodyEnds(nums: seq<nat>, seps: string, tail: string)
    requires nums != [] && |seps| == |nums| - 1 && ValidTail(tail)
    ensures var body := PrintNumbers(nums, seps) + tail;
            body != [] && IsDigit(body[0]) && !IsSpace(body[|body| - 1])
  {
    ParsePrint(nums[0]);
    if |nums| > 1 {
      PrintedEnds(nums[1..], seps);
    }
    var printed := PrintNumbers(nums, seps);
    assert IsDigit(printed[0]) && IsDigit(printed[|printed| - 1]);
    assert (printed + tail)[0] == printed[0];
  }

  lemma StripsToBody(lead: string, vs: string, body: string, trail: string)
    requires AllSpace(lead) && AllSpace(trail) && AllV(vs)
    requires body != [] && IsDigit(body[0]) && !IsSpace(body[|body| - 1])
    ensures StripV(Strip(lead + (vs + body) + trail)) == body
  {
    var whole := vs + body;
    assert whole[0] == if vs == [] then body[0] else vs[0];
    assert whole[|whole| - 1] == body[|body| - 1];
    assert lead + whole + trail == lead + (whole + trail);
    assert (whole + trail)[0] == whole[0];
    StripLeftPad(lead, whole + trail);
    StripRightPad(whole, trail);
    StripVs(vs, body);
  }

  /** Parsing undoes printing: any numbers printed in decimal with any separators, behind any
      number of v's, with any tail that does not begin with a number, and any padding. */
  lemma ParseUndoesPrint(lead: string, vs: string, nums: seq<nat>, seps: string, tail: string, trail: string)
    requires nums != [] && |seps| == |nums| - 1 && AllSeparators(seps)
    requires AllSpace(lead) && AllSpace(trail) && AllV(vs) && ValidTail(tail)
    ensures Tuple(lead + (vs + (PrintNumbers(nums, seps) + tail)) + trail) == nums
  {
    BodyEnds(nums, seps, tail);
    StripsToBody(lead, vs, PrintNumbers(nums, seps) + tail, trail);
    NumbersOfPrinted(nums[1..], seps, tail, nums[0]);
    assert PrintNumbers(nums, seps) + tail == Print(nums[0]) + (PrintFrom(nums[1..], seps) + tail);
    assert [nums[0]] + nums[1..] == nums;
  }
}
