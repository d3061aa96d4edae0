/** Stable sorting by insertion, and sequences that are strictly ordered. */
module Ordering {
  /** Puts `x` in front of the first element that does not have to come before it. */
  function Insert<T>(x: T, s: seq<T>, over: (T, T) -> bool): seq<T> {
    if s == [] then [x]
    else if over(s[0], x) then [s[0]] + Insert(x, s[1..], over)
    else [x] + s
  }

  /** The stable sort: `over(a, b)` says that a must come before b wherever they stood. */
  function Sort<T>(s: seq<T>, over: (T, T) -> bool): seq<T> {
    if s == [] then [] else Insert(s[0], Sort(s[1..], over), over)
  }

  ghost predicate Transitive<T(!new)>(before: (T, T) -> bool) {
    forall a, b, c :: before(a, b) && before(b, c) ==> before(a, c)
  }

  ghost predicate Irreflexive<T(!new)>(before: (T, T) -> bool) {
    forall a :: !before(a, a)
  }

  ghost predicate Pairwise<T>(s: seq<T>, before: (T, T) -> bool) {
    forall i, j :: 0 <= i < j < |s| ==> before(s[i], s[j])
  }

  lemma {:induction false} InsertKeeps<T>(x: T, s: seq<T>, over: (T, T) -> bool)
    ensures multiset(Insert(x, s, over)) == multiset{x} + multiset(s)
  {
    if s != [] && over(s[0], x) {
      InsertKeeps(x, s[1..], over);
      assert s == [s[0]] + s[1..];
    }
  }

  lemma {:induction false} SortKeeps<T>(s: seq<T>, over: (T, T) -> bool)
    ensures multiset(Sort(s, over)) == multiset(s)
    ensures |Sort(s, over)| == |s|
    ensures forall x :: x in Sort(s, over) <==> x in s
  {
    if s != [] {
      SortKeeps(s[1..], over);
      InsertKeeps(s[0], Sort(s[1..], over), over);
      assert s == [s[0]] + s[1..];
    }
    SameElements(Sort(s, over), s);
  }

  lemma SameElements<T>(a: seq<T>, b: seq<T>)
    requires multiset(a) == multiset(b)
    ensures |a| == |b| && forall x :: x in a <==> x in b
  {
    assert |multiset(a)| == |a| && |multiset(b)| == |b|;
    assert forall x :: x in a <==> x in multiset(a);
    assert forall x :: x in b <==> x in multiset(b);
  }

  lemma {:induction false} InsertOrdered<T(!new)>(x: T, s: seq<T>, over: (T, T) -> bool, before: (T, T) -> bool)
    requires Transitive(before) && Pairwise(s, before)
    requires forall y :: y in s ==> (if over(y, x) then before(y, x) else before(x, y))
    ensures Pairwise(Insert(x, s, over), before)
  {
    if s != [] {
      if over(s[0], x) {
        var rest := Insert(x, s[1..], over);
        InsertOrdered(x, s[1..], over, before);
        InsertKeeps(x, s[1..], over);
        forall j | 0 <= j < |rest|
          ensures before(s[0], rest[j])
        {
          assert rest[j] in multiset{x} + multiset(s[1..]);
        }
      } else {
        assert before(x, s[0]);
      }
    }
  }

  /** If earlier elements come before later ones that are not over them, the sort is ordered. */
  lemma {:induction false} SortOrdered<T(!new)>(s: seq<T>, over: (T, T) -> bool, before: (T, T) -> bool)
    requires Transitive(before)
    requires forall i, j :: 0 <= i < j < |s| ==> if over(s[j], s[i]) then before(s[j], s[i]) else before(s[i], s[j])
    ensures Pairwise(Sort(s, over), before)
  {
    if s != [] {
      var rest := s[1..];
      SortOrdered(rest, over, before);
      SortKeeps(rest, over);
      forall y | y in Sort(rest, over)
        ensures if over(y, s[0]) then before(y, s[0]) else before(s[0], y)
      {
        var j :| 0 <= j < |rest| && rest[j] == y;
        assert s[j + 1] == y;
      }
      InsertOrdered(s[0], Sort(rest, over), over, before);
    }
  }

  /** A strict order leaves only one way to line up given elements. */
  lemma {:induction false} OrderIsUnique<T(!new)>(a: seq<T>, b: seq<T>, before: (T, T) -> bool)
    requires Transitive(before) && Irreflexive(before)
    requires Pairwise(a, before) && Pairwise(b, before)
    requires forall x :: x in a <==> x in b
    ensures a == b
    decreases |a|
  {
    assert (a != [] ==> a[0] in a) && (b != [] ==> b[0] in b);
    if a != [] {
      FirstIsFirst(a, b, before);
      forall x
        ensures x in a[1..] <==> x in b[1..]
      {
        TailElements(a, x, before);
        TailElements(b, x, before);
      }
      OrderIsUnique(a[1..], b[1..], before);
      assert a == [a[0]] + a[1..] && b == [b[0]] + b[1..];
    }
  }

  lemma FirstIsFirst<T(!new)>(a: seq<T>, b: seq<T>, before: (T, T) -> bool)
    requires Transitive(before) && Irreflexive(before)
    requires Pairwise(a, before) && Pairwise(b, before)
    requires a != [] && b != [] && a[0] in b && b[0] in a
    ensures a[0] == b[0]
  {
    AtHead(a, b[0], before);
    AtHead(b, a[0], before);
    NoCycle(a[0], b[0], before);
  }

  lemma AtHead<T>(s: seq<T>, x: T, before: (T, T) -> bool)
    requires Pairwise(s, before) && x in s
    ensures x == s[0] || before(s[0], x)
  {
  }

  lemma NoCycle<T(!new)>(x: T, y: T, before: (T, T) -> bool)
    requires Transitive(before) && Irreflexive(before)
    ensures !(before(x, y) && before(y, x))
  {
    assert before(x, y) && before(y, x) ==> before(x, x);
  }

  lemma TailElements<T(!new)>(s: seq<T>, x: T, before: (T, T) -> bool)
    requires Irreflexive(before) && Pairwise(s, before) && s != []
    ensures x in s[1..] <==> x in s && x != s[0]
  {
    if x in s[1..] {
      var i :| 0 <= i < |s[1..]| && s[1..][i] == x;
      assert before(s[0], s[i + 1]);
    }
    if x in s && x != s[0] {
      var i :| 0 <= i < |s| && s[i] == x;
      assert s[1..][i - 1] == x;
    }
  }
}
