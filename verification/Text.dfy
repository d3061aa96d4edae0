/** ASCII text: case, stripping, splitting on whitespace, and substrings. */
module Text {
  /** The ASCII characters that count as whitespace. */
  predicate IsSpace(c: char) {
    9 <= c as int <= 13 || 28 <= c as int <= 32
  }

  predicate AllSpace(s: string) {
    forall i :: 0 <= i < |s| ==> IsSpace(s[i])
  }

  predicate NoSpace(s: string) {
    forall i :: 0 <= i < |s| ==> !IsSpace(s[i])
  }

  function LowerChar(c: char): char {
    if 'A' <= c <= 'Z' then (c as int + 32) as char else c
  }

  function UpperChar(c: char): char {
    if 'a' <= c <= 'z' then (c as int - 32) as char else c
  }

  function Lower(s: string): string {
    seq(|s|, i requires 0 <= i < |s| => LowerChar(s[i]))
  }

  function Upper(s: string): string {
    seq(|s|, i requires 0 <= i < |s| => UpperChar(s[i]))
  }

  /** The substring test. */
  predicate Contains(hay: string, needle: string) {
    needle <= hay || (hay != [] && Contains(hay[1..], needle))
  }

  /** A string contains exactly the strings that can be cut out of it. */
  lemma {:induction false} ContainsMeans(hay: string, needle: string)
    ensures Contains(hay, needle) <==> exists pre, post :: hay == pre + needle + post
  {
    if Contains(hay, needle) {
      if needle <= hay {
        assert hay == [] + needle + hay[|needle|..];
      } else {
        ContainsMeans(hay[1..], needle);
        var pre, post :| hay[1..] == pre + needle + post;
        assert hay == ([hay[0]] + pre) + needle + post;
      }
    }
    if pre, post :| hay == pre + needle + post {
      if pre == [] {
        assert hay == needle + post;
      } else {
        assert hay[1..] == pre[1..] + needle + post;
        ContainsMeans(hay[1..], needle);
      }
    }
  }

  // ----- letter case -----

  const UPPERCASE := "ABCDEFGHIJKLMNOPQRSTUVWXYZ"
  const LOWERCASE := "abcdefghijklmnopqrstuvwxyz"

  lemma Alphabet()
    ensures |UPPERCASE| == |LOWERCASE| == 26
    ensures forall i :: 0 <= i < 26 ==> UPPERCASE[i] as int == 65 + i && LOWERCASE[i] as int == 97 + i
  {
  }

  /** The same character, or the two cases of one letter. */
  predicate SameLetter(a: char, b: char) {
    || a == b
    || exists i :: 0 <= i < |UPPERCASE| && i < |LOWERCASE| && {a, b} == {UPPERCASE[i], LOWERCASE[i]}
  }

  predicate SameText(a: string, b: string) {
    |a| == |b| && forall i :: 0 <= i < |a| ==> SameLetter(a[i], b[i])
  }

  /** The needle can be found in the hay, letter by letter and in whatever case. */
  predicate Occurs(hay: string, needle: string) {
    exists k :: 0 <= k <= |hay| && OccursAt(hay, needle, k)
  }

  predicate OccursAt(hay: string, needle: string, k: nat) {
    k + |needle| <= |hay| && SameText(hay[k..k + |needle|], needle)
  }

  /** Each letter is taken to its other case, and all other characters stay. */
  lemma CaseOf(c: char)
    ensures forall i :: 0 <= i < 26 ==> LowerChar(UPPERCASE[i]) == LOWERCASE[i]
    ensures forall i :: 0 <= i < 26 ==> UpperChar(LOWERCASE[i]) == UPPERCASE[i]
    ensures c !in UPPERCASE ==> LowerChar(c) == c
    ensures c !in LOWERCASE ==> UpperChar(c) == c
  {
    Alphabet();
    if 'A' <= c <= 'Z' {
      assert UPPERCASE[c as int - 65] == c;
    } else if 'a' <= c <= 'z' {
      assert LOWERCASE[c as int - 97] == c;
    }
  }

  lemma SameLower(a: char, b: char)
    ensures SameLetter(a, b) <==> LowerChar(a) == LowerChar(b)
  {
    Alphabet();
    if a != b && LowerChar(a) == LowerChar(b) {
      var i := LowerChar(a) as int - 97;
      assert {a, b} == {UPPERCASE[i], LOWERCASE[i]};
    }
  }

  lemma SameUpper(a: char, b: char)
    ensures SameLetter(a, b) <==> UpperChar(a) == UpperChar(b)
  {
    Alphabet();
    if a != b && UpperChar(a) == UpperChar(b) {
      var i := UpperChar(a) as int - 65;
      assert {a, b} == {UPPERCASE[i], LOWERCASE[i]};
    }
  }

  /** Two texts have one lower case, and one upper case, exactly if they differ in the case of letters only. */
  lemma CaseMeans(a: string, b: string)
    ensures SameText(a, b) <==> Lower(a) == Lower(b)
    ensures SameText(a, b) <==> Upper(a) == Upper(b)
  {
    forall i | 0 <= i < |a| && |a| == |b|
      ensures SameLetter(a[i], b[i]) <==> Lower(a)[i] == Lower(b)[i]
      ensures SameLetter(a[i], b[i]) <==> Upper(a)[i] == Upper(b)[i]
    {
      SameLower(a[i], b[i]);
      SameUpper(a[i], b[i]);
    }
    hide SameLetter, LowerChar, UpperChar;
    assert |Lower(a)| == |a| && |Lower(b)| == |b| && |Upper(a)| == |a| && |Upper(b)| == |b|;
  }

  /** The substring test on lower-cased texts ignores case and nothing else. */
  lemma ContainsIgnoresCase(hay: string, needle: string)
    ensures Contains(Lower(hay), Lower(needle)) <==> Occurs(hay, needle)
  {
    ContainsMeans(Lower(hay), Lower(needle));
    LowerSlice(hay, 0, 0);
    LowerSlice(needle, 0, 0);
    hide Lower, SameText, Contains;
    if pre, post :| Lower(hay) == pre + Lower(needle) + post {
      CutIsOccurrence(hay, needle, pre, post);
    }
    if k :| 0 <= k <= |hay| && OccursAt(hay, needle, k) {
      OccurrenceIsCut(hay, needle, k);
    }
  }

  lemma CutIsOccurrence(hay: string, needle: string, pre: string, post: string)
    requires Lower(hay) == pre + Lower(needle) + post
    ensures |pre| <= |hay| && OccursAt(hay, needle, |pre|)
  {
    var k := |pre|;
    LowerSlice(needle, 0, 0);
    LowerSlice(hay, k, k + |needle|);
    CaseMeans(hay[k..k + |needle|], needle);
    hide Lower, SameText;
    assert Lower(hay)[k..k + |needle|] == Lower(needle);
  }

  lemma OccurrenceIsCut(hay: string, needle: string, k: nat)
    requires OccursAt(hay, needle, k)
    ensures exists pre, post :: Lower(hay) == pre + Lower(needle) + post
  {
    var h := Lower(hay);
    LowerSlice(needle, 0, 0);
    LowerSlice(hay, k, k + |needle|);
    CaseMeans(hay[k..k + |needle|], needle);
    hide Lower, SameText;
    assert h == h[..k] + h[k..k + |needle|] + h[k + |needle|..];
  }

  lemma LowerSlice(s: string, i: nat, j: nat)
    requires i <= j <= |s|
    ensures |Lower(s)| == |s| && Lower(s[i..j]) == Lower(s)[i..j]
  {
  }

  // ----- stripping and splitting -----

  /** The whitespace characters, one by one. */
  lemma WhatIsSpace(c: char)
    ensures IsSpace(c) <==> c in {'\t', '\n', '\U{B}', '\U{C}', '\r', '\U{1C}', '\U{1D}', '\U{1E}', '\U{1F}', ' '}
  {
  }

  function StripLeft(s: string): string {
    if s != [] && IsSpace(s[0]) then StripLeft(s[1..]) else s
  }

  function StripRight(s: string): string {
    if s != [] && IsSpace(s[|s| - 1]) then StripRight(s[..|s| - 1]) else s
  }

  function Strip(s: string): string {
    StripRight(StripLeft(s))
  }

  lemma {:induction false} StripLeftMeans(s: string) returns (lead: string)
    ensures s == lead + StripLeft(s) && AllSpace(lead)
    ensures StripLeft(s) == [] || !IsSpace(StripLeft(s)[0])
  {
    lead := [];
    if s != [] && IsSpace(s[0]) {
      lead := StripLeftMeans(s[1..]);
      lead := [s[0]] + lead;
    }
  }

  lemma {:induction false} StripRightMeans(s: string) returns (trail: string)
    ensures s == StripRight(s) + trail && AllSpace(trail)
    ensures StripRight(s) == [] || !IsSpace(StripRight(s)[|StripRight(s)| - 1])
  {
    trail := [];
    if s != [] && IsSpace(s[|s| - 1]) {
      var c := s[|s| - 1];
      trail := StripRightMeans(s[..|s| - 1]);
      hide StripRight, IsSpace;
      assert s == s[..|s| - 1] + [c];
      trail := trail + [c];
    }
  }

  lemma StripRightStarts(s: string, trail: string)
    requires s == StripRight(s) + trail && StripRight(s) != []
    ensures StripRight(s)[0] == s[0]
  {
    hide StripRight;
  }

  /** What is stripped is the whitespace at both ends, and all of it. */
  lemma StripMeans(s: string) returns (lead: string, trail: string)
    ensures s == lead + Strip(s) + trail && AllSpace(lead) && AllSpace(trail)
    ensures Strip(s) == [] || (!IsSpace(Strip(s)[0]) && !IsSpace(Strip(s)[|Strip(s)| - 1]))
  {
    lead := StripLeftMeans(s);
    trail := StripRightMeans(StripLeft(s));
    if Strip(s) != [] {
      StripRightStarts(StripLeft(s), trail);
    }
    hide StripLeft, StripRight, IsSpace;
  }

  lemma {:induction false} StripLeftPad(lead: string, body: string)
    requires AllSpace(lead) && body != [] && !IsSpace(body[0])
    ensures StripLeft(lead + body) == body
    decreases |lead|
  {
    if lead == [] {
      assert lead + body == body;
    } else {
      assert (lead + body)[1..] == lead[1..] + body;
      StripLeftPad(lead[1..], body);
    }
  }

  lemma {:induction false} StripRightPad(body: string, trail: string)
    requires AllSpace(trail) && body != [] && !IsSpace(body[|body| - 1])
    ensures StripRight(body + trail) == body
    decreases |trail|
  {
    if trail == [] {
      assert body + trail == body;
    } else {
      var s := body + trail;
      assert s[..|s| - 1] == body + trail[..|trail| - 1];
      StripRightPad(body, trail[..|trail| - 1]);
    }
  }

  function Word(w: string): seq<string> {
    if w == [] then [] else [w]
  }

  /** The words of `s`, with `word` already read. */
  function SplitFrom(s: string, word: string): seq<string>
    decreases |s|
  {
    if s == [] then Word(word)
    else if IsSpace(s[0]) then Word(word) + SplitFrom(s[1..], [])
    else SplitFrom(s[1..], word + [s[0]])
  }

  /** The maximal runs of characters that are not whitespace. */
  function Split(s: string): seq<string> {
    SplitFrom(s, [])
  }

  lemma {:induction false} SplitAcross(a: string, c: char, b: string, word: string)
    requires IsSpace(c)
    ensures SplitFrom(a + [c] + b, word) == SplitFrom(a, word) + Split(b)
    decreases |a|
  {
    var s := a + [c] + b;
    if a == [] {
      assert s[1..] == b;
    } else {
      assert s[1..] == a[1..] + [c] + b;
      if IsSpace(a[0]) {
        SplitAcross(a[1..], c, b, []);
      } else {
        SplitAcross(a[1..], c, b, word + [a[0]]);
      }
    }
  }

  /** Splitting distributes over any whitespace. */
  lemma {:induction false} SplitGap(a: string, gap: string, b: string)
    requires gap != [] && AllSpace(gap)
    ensures Split(a + gap + b) == Split(a) + Split(b)
    decreases |gap|
  {
    var rest := gap[1..] + b;
    assert a + gap + b == a + [gap[0]] + rest;
    SplitAcross(a, gap[0], rest, []);
    if gap[1..] == [] {
      assert rest == b;
    } else {
      assert rest == [] + gap[1..] + b;
      SplitGap([], gap[1..], b);
    }
  }

  lemma {:induction false} SplitWord(w: string, word: string)
    requires NoSpace(w)
    ensures SplitFrom(w, word) == Word(word + w)
    decreases |w|
  {
    if w == [] {
      assert word + w == word;
    } else {
      SplitWord(w[1..], word + [w[0]]);
      assert word + [w[0]] + w[1..] == word + w;
    }
  }

  lemma {:induction false} StripLeftSplit(s: string)
    ensures Split(StripLeft(s)) == Split(s)
    decreases |s|
  {
    if s != [] && IsSpace(s[0]) {
      StripLeftSplit(s[1..]);
    }
  }

  lemma {:induction false} StripRightSplit(s: string)
    ensures Split(StripRight(s)) == Split(s)
    decreases |s|
  {
    if s != [] && IsSpace(s[|s| - 1]) {
      var t := s[..|s| - 1];
      StripRightSplit(t);
      assert s == t + [s[|s| - 1]] + [];
      SplitAcross(t, s[|s| - 1], [], []);
    }
  }

  /** Stripping first changes no word. */
  lemma StripSplit(s: string)
    ensures Split(Strip(s)) == Split(s)
  {
    StripLeftSplit(s);
    StripRightSplit(StripLeft(s));
  }

  lemma StripWord(w: string)
    requires NoSpace(w)
    ensures Strip(w) == w
  {
  }

  lemma BlankHasNoWords(s: string)
    requires Strip(s) == []
    ensures Split(s) == []
  {
    StripSplit(s);
  }

  // ----- case and whitespace -----

  lemma CaseAndSpace(c: char)
    ensures IsSpace(LowerChar(c)) <==> IsSpace(c)
    ensures IsSpace(c) ==> LowerChar(c) == c
    ensures LowerChar(LowerChar(c)) == LowerChar(c) && UpperChar(LowerChar(c)) == UpperChar(c)
  {
  }

  lemma LowerTwice(s: string)
    ensures Lower(Lower(s)) == Lower(s) && Upper(Lower(s)) == Upper(s)
  {
    forall i | 0 <= i < |s|
      ensures Lower(Lower(s))[i] == Lower(s)[i] && Upper(Lower(s))[i] == Upper(s)[i]
    {
      CaseAndSpace(s[i]);
    }
  }

  lemma LowerConcat(a: string, b: string)
    ensures Lower(a + b) == Lower(a) + Lower(b)
  {
  }

  lemma {:induction false} StripLowerLeft(s: string)
    ensures StripLeft(Lower(s)) == Lower(StripLeft(s))
  {
    if s != [] {
      CaseAndSpace(s[0]);
      if IsSpace(s[0]) {
        assert Lower(s)[1..] == Lower(s[1..]);
        StripLowerLeft(s[1..]);
      }
    }
  }

  lemma {:induction false} StripLowerRight(s: string)
    ensures StripRight(Lower(s)) == Lower(StripRight(s))
  {
    if s != [] {
      var t := s[..|s| - 1];
      CaseAndSpace(s[|s| - 1]);
      if IsSpace(s[|s| - 1]) {
        assert Lower(s)[..|s| - 1] == Lower(t);
        StripLowerRight(t);
      }
    }
  }

  lemma StripLower(s: string)
    ensures Strip(Lower(s)) == Lower(Strip(s))
  {
    StripLowerLeft(s);
    StripLowerRight(StripLeft(s));
  }

  function LowerAll(words: seq<string>): seq<string> {
    seq(|words|, i requires 0 <= i < |words| => Lower(words[i]))
  }

  lemma {:induction false} SplitLowerFrom(s: string, word: string)
    ensures SplitFrom(Lower(s), Lower(word)) == LowerAll(SplitFrom(s, word))
    decreases |s|
  {
    if s != [] {
      CaseAndSpace(s[0]);
      assert Lower(s)[1..] == Lower(s[1..]);
      if IsSpace(s[0]) {
        SplitLowerFrom(s[1..], []);
        assert Lower([]) == [];
        LowerAllConcat(Word(word), SplitFrom(s[1..], []));
      } else {
        SplitLowerFrom(s[1..], word + [s[0]]);
        assert Lower(word + [s[0]]) == Lower(word) + [LowerChar(s[0])];
      }
    }
  }

  lemma LowerAllConcat(a: seq<string>, b: seq<string>)
    ensures LowerAll(a + b) == LowerAll(a) + LowerAll(b)
  {
  }

  /** The words of a lower-cased text are its words, lower-cased. */
  lemma SplitLower(s: string)
    ensures Split(Lower(s)) == LowerAll(Split(s))
  {
    SplitLowerFrom(s, []);
    assert Lower([]) == [];
  }
}
