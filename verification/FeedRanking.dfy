/** What a parsed feed is, said without the dictionary: one result for every name and
    version, the earliest of the largest, in the order of score, size and first appearance. */
module FeedRanking {
  import opened Results
  import opened Text
  import opened Ordering
  import opened Feed

  // ----- the declarative description -----

  /** Item i is the one to keep of its key: none is larger, and no earlier one as large. */
  ghost predicate Wins(cs: seq<Candidate>, i: nat)
    requires i < |cs|
  {
    forall j :: 0 <= j < |cs| && KeyOf(cs[j]) == KeyOf(cs[i]) ==>
      cs[j].size <= cs[i].size && (j < i ==> cs[j].size < cs[i].size)
  }

  /** Where a key first appears; the length of the feed if it does not. */
  function First(cs: seq<Candidate>, k: Key): nat {
    if cs == [] then 0 else if KeyOf(cs[0]) == k then 0 else 1 + First(cs[1..], k)
  }

  predicate Precedes(cs: seq<Candidate>, a: Candidate, b: Candidate) {
    Over(a, b) || (!Over(b, a) && First(cs, KeyOf(a)) < First(cs, KeyOf(b)))
  }

  ghost predicate IsWinner(cs: seq<Candidate>, c: Candidate) {
    exists i :: 0 <= i < |cs| && cs[i] == c && Wins(cs, i)
  }

  /** The whole description of the results of a feed. */
  ghost predicate IsRanking(cs: seq<Candidate>, rs: seq<Candidate>) {
    && (forall c :: c in rs <==> IsWinner(cs, c))
    && Pairwise(rs, (a, b) => Precedes(cs, a, b))
  }

  // ----- the dictionary holds the winners -----

  ghost predicate HoldsKeys(d: Dedup, cs: seq<Candidate>) {
    forall i :: 0 <= i < |cs| ==> KeyOf(cs[i]) in d.best
  }

  ghost predicate HoldsWinners(d: Dedup, cs: seq<Candidate>) {
    forall k :: k in d.best ==> IsWinner(cs, d.best[k])
  }

  /** The keys stand in the order of their first appearance. */
  ghost predicate KeysInOrder(d: Dedup, cs: seq<Candidate>) {
    && (forall i :: 0 <= i < |d.keys| ==> First(cs, d.keys[i]) < |cs|)
    && (forall i, j :: 0 <= i < j < |d.keys| ==> First(cs, d.keys[i]) < First(cs, d.keys[j]))
  }

  ghost predicate Holds(d: Dedup, cs: seq<Candidate>) {
    Consistent(d) && HoldsKeys(d, cs) && HoldsWinners(d, cs) && KeysInOrder(d, cs)
  }

  lemma {:induction false} FirstGrows(cs: seq<Candidate>, c: Candidate, k: Key)
    ensures First(cs, k) <= |cs|
    ensures First(cs, k) < |cs| ==> First(cs + [c], k) == First(cs, k)
    ensures First(cs, k) == |cs| && KeyOf(c) == k ==> First(cs + [c], k) == |cs|
    ensures First(cs, k) < |cs| <==> exists i :: 0 <= i < |cs| && KeyOf(cs[i]) == k
    decreases |cs|
  {
    if cs != [] {
      assert (cs + [c])[1..] == cs[1..] + [c];
      FirstGrows(cs[1..], c, k);
      if First(cs[1..], k) < |cs[1..]| {
        var i :| 0 <= i < |cs[1..]| && KeyOf(cs[1..][i]) == k;
        assert KeyOf(cs[i + 1]) == k;
      }
      if i :| 0 <= i < |cs| && KeyOf(cs[i]) == k && i > 0 {
        assert KeyOf(cs[1..][i - 1]) == k;
      }
    }
  }

  lemma WinsStays(cs: seq<Candidate>, c: Candidate, i: nat)
    requires i < |cs| && Wins(cs, i)
    requires KeyOf(c) == KeyOf(cs[i]) ==> c.size <= cs[i].size
    ensures IsWinner(cs + [c], cs[i])
  {
    var longer := cs + [c];
    assert longer[i] == cs[i] && Wins(longer, i);
  }

  lemma NewWinner(cs: seq<Candidate>, c: Candidate)
    requires forall j :: 0 <= j < |cs| && KeyOf(cs[j]) == KeyOf(c) ==> cs[j].size < c.size
    ensures IsWinner(cs + [c], c)
  {
    var longer := cs + [c];
    assert longer[|cs|] == c && Wins(longer, |cs|);
  }

  lemma AddHoldsKeys(d: Dedup, cs: seq<Candidate>, c: Candidate)
    requires HoldsKeys(d, cs)
    ensures HoldsKeys(Add(d, c), cs + [c])
  {
  }

  lemma AddedWins(d: Dedup, cs: seq<Candidate>, c: Candidate, k: Key)
    requires Consistent(d) && HoldsKeys(d, cs) && HoldsWinners(d, cs) && k in Add(d, c).best
    ensures IsWinner(cs + [c], Add(d, c).best[k])
  {
    if k in d.best {
      var i :| 0 <= i < |cs| && cs[i] == d.best[k] && Wins(cs, i);
      if k == KeyOf(c) && c.size > cs[i].size {
        NewWinner(cs, c);
      } else {
        WinsStays(cs, c, i);
      }
    } else {
      NewWinner(cs, c);
    }
  }

  lemma AddKeepsOrder(d: Dedup, cs: seq<Candidate>, c: Candidate)
    requires Consistent(d) && HoldsKeys(d, cs) && KeysInOrder(d, cs)
    ensures KeysInOrder(Add(d, c), cs + [c])
  {
    FirstGrows(cs, c, KeyOf(c));
    forall i | 0 <= i < |d.keys|
      ensures First(cs + [c], d.keys[i]) == First(cs, d.keys[i])
    {
      FirstGrows(cs, c, d.keys[i]);
    }
  }

  lemma AddHolds(d: Dedup, cs: seq<Candidate>, c: Candidate)
    requires Holds(d, cs)
    ensures Holds(Add(d, c), cs + [c])
  {
    AddConsistent(d, c);
    AddHoldsKeys(d, cs, c);
    AddKeepsOrder(d, cs, c);
    forall k | k in Add(d, c).best
      ensures IsWinner(cs + [c], Add(d, c).best[k])
    {
      AddedWins(d, cs, c, k);
    }
  }

  lemma NothingHolds()
    ensures Holds(EMPTY_DEDUP, [])
  {
  }

  lemma {:induction false} FoldHolds(cs: seq<Candidate>)
    ensures Holds(Fold(EMPTY_DEDUP, cs), cs)
    decreases |cs|
  {
    hide Holds, Add;
    if cs == [] {
      NothingHolds();
    } else {
      var n := |cs| - 1;
      FoldHolds(cs[..n]);
      FoldLast(cs[..n], cs[n]);
      AddHolds(Fold(EMPTY_DEDUP, cs[..n]), cs[..n], cs[n]);
      assert cs == cs[..n] + [cs[n]];
    }
  }

  lemma WinnerIsUnique(cs: seq<Candidate>, a: Candidate, b: Candidate)
    requires IsWinner(cs, a) && IsWinner(cs, b) && KeyOf(a) == KeyOf(b)
    ensures a == b
  {
    var i :| 0 <= i < |cs| && cs[i] == a && Wins(cs, i);
    var j :| 0 <= j < |cs| && cs[j] == b && Wins(cs, j);
  }

  lemma WinnerIsValue(cs: seq<Candidate>, c: Candidate)
    requires Consistent(Fold(EMPTY_DEDUP, cs)) && IsWinner(cs, c)
    ensures c in Values(Fold(EMPTY_DEDUP, cs))
  {
    var d := Fold(EMPTY_DEDUP, cs);
    FoldHolds(cs);
    var i :| 0 <= i < |cs| && cs[i] == c && Wins(cs, i);
    assert KeyOf(c) in d.best;
    WinnerIsUnique(cs, c, d.best[KeyOf(c)]);
    hide Fold, Wins, First, Holds, HoldsKeys, HoldsWinners, KeysInOrder;
    assert KeyOf(c) in (set k | k in d.keys);
    var a :| 0 <= a < |d.keys| && d.keys[a] == KeyOf(c);
    assert Values(d)[a] == c;
  }

  lemma ValueIsWinner(cs: seq<Candidate>, c: Candidate)
    requires Consistent(Fold(EMPTY_DEDUP, cs)) && c in Values(Fold(EMPTY_DEDUP, cs))
    ensures IsWinner(cs, c)
  {
    var d := Fold(EMPTY_DEDUP, cs);
    FoldHolds(cs);
    hide Fold, Wins, First, IsWinner;
    var a :| 0 <= a < |d.keys| && Values(d)[a] == c;
    assert d.keys[a] in (set k | k in d.keys);
  }

  lemma ValuesAreWinners(cs: seq<Candidate>, c: Candidate)
    requires Consistent(Fold(EMPTY_DEDUP, cs))
    ensures c in Values(Fold(EMPTY_DEDUP, cs)) <==> IsWinner(cs, c)
  {
    hide *;
    if IsWinner(cs, c) {
      WinnerIsValue(cs, c);
    }
    if c in Values(Fold(EMPTY_DEDUP, cs)) {
      ValueIsWinner(cs, c);
    }
  }

  lemma PrecedesIsTransitive(cs: seq<Candidate>)
    ensures Transitive((a, b) => Precedes(cs, a, b)) && Irreflexive((a, b) => Precedes(cs, a, b))
  {
  }

  /** The loop and the sort return exactly the ranking that the description asks for. */
  lemma RankedIsRanking(cs: seq<Candidate>)
    ensures IsRanking(cs, Ranked(cs))
  {
    FoldConsistent(EMPTY_DEDUP, cs);
    FoldHolds(cs);
    var d := Fold(EMPTY_DEDUP, cs);
    var vs := Survivors(cs);
    SortKeeps(vs, Over);
    forall c
      ensures c in Ranked(cs) <==> IsWinner(cs, c)
    {
      ValuesAreWinners(cs, c);
    }
    PrecedesIsTransitive(cs);
    forall i | 0 <= i < |vs|
      ensures KeyOf(vs[i]) == d.keys[i]
    {
      assert d.keys[i] in (set k | k in d.keys);
    }
    SortOrdered(vs, Over, (a, b) => Precedes(cs, a, b));
  }

  /** The same name up to the case of letters, and the same version. */
  predicate SameRelease(a: Candidate, b: Candidate) {
    SameText(a.item.displayName, b.item.displayName) && a.item.version == b.item.version
  }

  /** No release of the same name and version is larger, and none before it as large. */
  predicate IsKept(cs: seq<Candidate>, i: nat)
    requires i < |cs|
  {
    forall j :: 0 <= j < |cs| && SameRelease(cs[j], cs[i]) ==>
      cs[j].size <= cs[i].size && (j < i ==> cs[j].size < cs[i].size)
  }

  /** In plain words: what is kept, and that a higher score goes first, then a larger size, then what
      appeared first under its name and version. */
  lemma RankingMeans(cs: seq<Candidate>)
    ensures forall c :: c in Ranked(cs) <==> exists i :: 0 <= i < |cs| && cs[i] == c && IsKept(cs, i)
    ensures forall a, b :: 0 <= a < b < |Ranked(cs)| ==>
              var x, y := Ranked(cs)[a], Ranked(cs)[b];
              || x.score > y.score
              || (x.score == y.score && x.size > y.size)
              || (x.score == y.score && x.size == y.size && AppearsBefore(cs, x, y))
  {
    RankedIsRanking(cs);
    forall i | 0 <= i < |cs|
      ensures IsKept(cs, i) <==> Wins(cs, i)
    {
      forall j | 0 <= j < |cs|
        ensures SameRelease(cs[j], cs[i]) <==> KeyOf(cs[j]) == KeyOf(cs[i])
      {
        KeyMeans(cs[j], cs[i]);
      }
    }
    hide IsKept, Wins, Ranked;
    var rs := Ranked(cs);
    forall a, b | 0 <= a < b < |rs|
      ensures rs[a].score > rs[b].score || (rs[a].score == rs[b].score && rs[a].size > rs[b].size)
           || (rs[a].score == rs[b].score && rs[a].size == rs[b].size && AppearsBefore(cs, rs[a], rs[b]))
    {
      assert Precedes(cs, rs[a], rs[b]);
      if First(cs, KeyOf(rs[a])) < First(cs, KeyOf(rs[b])) {
        FirstAppears(cs, rs[a], rs[b]);
      }
    }
  }

  /** A release like `a` is among the candidates, and none like `b` at its place or before it. */
  predicate AppearsBefore(cs: seq<Candidate>, a: Candidate, b: Candidate) {
    exists i :: 0 <= i < |cs| && SameRelease(cs[i], a) && forall j :: 0 <= j <= i ==> !SameRelease(cs[j], b)
  }

  lemma {:induction false} FirstMeans(cs: seq<Candidate>, k: Key)
    ensures var n := First(cs, k);
            && n <= |cs|
            && (n < |cs| ==> KeyOf(cs[n]) == k)
            && forall j :: 0 <= j < n ==> KeyOf(cs[j]) != k
  {
    if cs != [] && KeyOf(cs[0]) != k {
      FirstMeans(cs[1..], k);
      assert forall j :: 0 < j < |cs| ==> cs[j] == cs[1..][j - 1];
    }
  }

  lemma FirstAppears(cs: seq<Candidate>, a: Candidate, b: Candidate)
    requires First(cs, KeyOf(a)) < First(cs, KeyOf(b))
    ensures AppearsBefore(cs, a, b)
  {
    FirstMeans(cs, KeyOf(a));
    FirstMeans(cs, KeyOf(b));
    forall j | 0 <= j < |cs|
      ensures SameRelease(cs[j], a) <==> KeyOf(cs[j]) == KeyOf(a)
      ensures SameRelease(cs[j], b) <==> KeyOf(cs[j]) == KeyOf(b)
    {
      KeyMeans(cs[j], a);
      KeyMeans(cs[j], b);
    }
    hide SameRelease, KeyOf, First;
    assert SameRelease(cs[First(cs, KeyOf(a))], a);
  }

  /** And the description leaves no choice. */
  lemma RankingIsUnique(cs: seq<Candidate>, rs: seq<Candidate>)
    requires IsRanking(cs, rs)
    ensures rs == Ranked(cs)
  {
    RankedIsRanking(cs);
    PrecedesIsTransitive(cs);
    OrderIsUnique(rs, Ranked(cs), (a, b) => Precedes(cs, a, b));
  }

  lemma WinnerExists(cs: seq<Candidate>, k: Key)
    requires exists i :: 0 <= i < |cs| && KeyOf(cs[i]) == k
    ensures exists c :: IsWinner(cs, c) && KeyOf(c) == k
  {
    FoldHolds(cs);
    var i :| 0 <= i < |cs| && KeyOf(cs[i]) == k;
    assert IsWinner(cs, Fold(EMPTY_DEDUP, cs).best[k]);
  }

  /** Every name and version of the feed appears among the results exactly once. */
  lemma OneResultPerKey(cs: seq<Candidate>, k: Key)
    ensures (exists i :: 0 <= i < |cs| && KeyOf(cs[i]) == k)
       <==> (exists a :: 0 <= a < |Ranked(cs)| && KeyOf(Ranked(cs)[a]) == k)
    ensures forall a, b :: 0 <= a < b < |Ranked(cs)| ==> KeyOf(Ranked(cs)[a]) != KeyOf(Ranked(cs)[b])
  {
    var rs := Ranked(cs);
    RankedIsRanking(cs);
    if exists i :: 0 <= i < |cs| && KeyOf(cs[i]) == k {
      WinnerExists(cs, k);
      var c :| IsWinner(cs, c) && KeyOf(c) == k;
      assert c in rs;
    }
    if a :| 0 <= a < |rs| && KeyOf(rs[a]) == k {
      assert rs[a] in rs;
    }
    forall a, b | 0 <= a < b < |rs|
      ensures KeyOf(rs[a]) != KeyOf(rs[b])
    {
      assert rs[a] in rs && rs[b] in rs;
      assert Precedes(cs, rs[a], rs[b]);
      if KeyOf(rs[a]) == KeyOf(rs[b]) {
        WinnerIsUnique(cs, rs[a], rs[b]);
      }
    }
  }

  // ----- feeding the survivors back -----

  function Restrict(m: map<Key, Candidate>, ks: seq<Key>): map<Key, Candidate> {
    map k | k in ks && k in m :: m[k]
  }

  lemma RestrictMore(m: map<Key, Candidate>, ks: seq<Key>, k: Key)
    requires k in m
    ensures Restrict(m, ks + [k]) == Restrict(m, ks)[k := m[k]]
  {
  }

  lemma KeysAreBest(d: Dedup, k: Key)
    requires Consistent(d)
    ensures k in d.keys <==> k in d.best
  {
    assert k in d.keys <==> k in (set k' | k' in d.keys);
  }

  /** The dictionary with only its first n keys. */
  function Prefix(d: Dedup, n: nat): Dedup
    requires n <= |d.keys|
  {
    Dedup(d.keys[..n], Restrict(d.best, d.keys[..n]))
  }

  lemma AddNew(d: Dedup, n: nat)
    requires Consistent(d) && n < |d.keys|
    ensures Add(Prefix(d, n), Values(d)[n]) == Prefix(d, n + 1)
  {
    var k := d.keys[n];
    KeysAreBest(d, k);
    assert d.keys[..n + 1] == d.keys[..n] + [k];
    RestrictMore(d.best, d.keys[..n], k);
  }

  lemma PrefixEnds(d: Dedup)
    requires Consistent(d)
    ensures Prefix(d, 0) == EMPTY_DEDUP && Prefix(d, |d.keys|) == d
  {
    forall k
      ensures k in d.keys <==> k in d.best
    {
      KeysAreBest(d, k);
    }
    assert d.keys[..|d.keys|] == d.keys;
    assert Restrict(d.best, d.keys) == d.best;
  }

  lemma {:induction false} FoldValues(d: Dedup, n: nat)
    requires Consistent(d) && n <= |d.keys|
    ensures Fold(EMPTY_DEDUP, Values(d)[..n]) == Prefix(d, n)
  {
    hide *;
    if n == 0 {
      PrefixEnds(d);
      FoldNone(Values(d));
    } else {
      AddNew(d, n - 1);
      FoldValues(d, n - 1);
      FoldTake(Values(d), n);
    }
  }

  lemma FoldNone(vs: seq<Candidate>)
    ensures Fold(EMPTY_DEDUP, vs[..0]) == EMPTY_DEDUP
  {
  }

  lemma FoldTake(vs: seq<Candidate>, n: nat)
    requires 0 < n <= |vs|
    ensures Fold(EMPTY_DEDUP, vs[..n]) == Add(Fold(EMPTY_DEDUP, vs[..n - 1]), vs[n - 1])
  {
    FoldLast(vs[..n - 1], vs[n - 1]);
    assert vs[..n] == vs[..n - 1] + [vs[n - 1]];
  }

  /** Deduplication is incremental: the survivors of one feed, in dictionary order, followed
      by another feed give the same dictionary as the two feeds together. */
  lemma DedupIsIncremental(a: seq<Candidate>, b: seq<Candidate>)
    ensures Fold(EMPTY_DEDUP, Survivors(a) + b) == Fold(EMPTY_DEDUP, a + b)
  {
    FoldConsistent(EMPTY_DEDUP, a);
    var d := Fold(EMPTY_DEDUP, a);
    FoldValues(d, |d.keys|);
    assert Values(d)[..|d.keys|] == Values(d);
    PrefixEnds(d);
    FoldConcat(EMPTY_DEDUP, Values(d), b);
    FoldConcat(EMPTY_DEDUP, a, b);
  }

  // ----- feeds in another order -----

  /** None of its key is larger. */
  ghost predicate Largest(cs: seq<Candidate>, c: Candidate) {
    c in cs && forall o :: o in cs && KeyOf(o) == KeyOf(c) ==> o.size <= c.size
  }

  /** No two different items of one key are both of the largest size. */
  ghost predicate ClearWinners(cs: seq<Candidate>) {
    forall a, b :: Largest(cs, a) && Largest(cs, b) && KeyOf(a) == KeyOf(b) ==> a == b
  }

  lemma BestIsLargest(cs: seq<Candidate>, k: Key)
    requires k in Fold(EMPTY_DEDUP, cs).best
    ensures var c := Fold(EMPTY_DEDUP, cs).best[k]; Largest(cs, c) && KeyOf(c) == k
  {
    FoldHolds(cs);
    var c := Fold(EMPTY_DEDUP, cs).best[k];
    var i :| 0 <= i < |cs| && cs[i] == c && Wins(cs, i);
  }

  lemma BestKeys(cs: seq<Candidate>, k: Key)
    ensures k in Fold(EMPTY_DEDUP, cs).best <==> exists c :: c in cs && KeyOf(c) == k
  {
    FoldHolds(cs);
    if k in Fold(EMPTY_DEDUP, cs).best {
      BestIsLargest(cs, k);
    }
  }

  /** Clear winners are chosen whatever the order of the feed. */
  lemma ClearWinnersStay(a: seq<Candidate>, b: seq<Candidate>)
    requires ClearWinners(a) && multiset(a) == multiset(b)
    ensures Fold(EMPTY_DEDUP, a).best == Fold(EMPTY_DEDUP, b).best
  {
    SameElements(a, b);
    var m, n := Fold(EMPTY_DEDUP, a).best, Fold(EMPTY_DEDUP, b).best;
    forall k
      ensures k in m <==> k in n
    {
      BestKeys(a, k);
      BestKeys(b, k);
    }
    forall k | k in m && k in n
      ensures m[k] == n[k]
    {
      BestIsLargest(a, k);
      BestIsLargest(b, k);
    }
  }

  lemma FirstLargestIsBest(c: Candidate, rest: seq<Candidate>)
    requires Largest([c] + rest, c)
    ensures KeyOf(c) in Fold(EMPTY_DEDUP, [c] + rest).best && Fold(EMPTY_DEDUP, [c] + rest).best[KeyOf(c)] == c
  {
    var cs := [c] + rest;
    FoldHolds(cs);
    assert cs[0] == c;
    forall j | 0 <= j < |cs| && KeyOf(cs[j]) == KeyOf(c)
      ensures cs[j].size <= c.size
    {
      assert cs[j] in cs;
    }
    assert Wins(cs, 0);
    WinnerIsUnique(cs, c, Fold(EMPTY_DEDUP, cs).best[KeyOf(c)]);
  }

  lemma MovedToFront(cs: seq<Candidate>, c: Candidate) returns (rest: seq<Candidate>)
    requires c in cs
    ensures multiset([c] + rest) == multiset(cs)
  {
    var i :| 0 <= i < |cs| && cs[i] == c;
    rest := cs[..i] + cs[i + 1..];
    assert cs == cs[..i] + [c] + cs[i + 1..];
  }

  ghost predicate OrderDoesNotMatter(cs: seq<Candidate>) {
    forall b: seq<Candidate> :: multiset(b) == multiset(cs) ==> Fold(EMPTY_DEDUP, b).best == Fold(EMPTY_DEDUP, cs).best
  }

  lemma PutFirst(cs: seq<Candidate>, c: Candidate)
    requires OrderDoesNotMatter(cs) && Largest(cs, c)
    ensures KeyOf(c) in Fold(EMPTY_DEDUP, cs).best && Fold(EMPTY_DEDUP, cs).best[KeyOf(c)] == c
  {
    var rest := MovedToFront(cs, c);
    SameElements([c] + rest, cs);
    FirstLargestIsBest(c, rest);
  }

  /** The chosen items do not depend on the order of the feed exactly when winners are clear. */
  lemma OrderMattersOnlyForTies(cs: seq<Candidate>)
    ensures OrderDoesNotMatter(cs) <==> ClearWinners(cs)
  {
    if ClearWinners(cs) {
      forall b: seq<Candidate> | multiset(b) == multiset(cs)
        ensures Fold(EMPTY_DEDUP, b).best == Fold(EMPTY_DEDUP, cs).best
      {
        ClearWinnersStay(cs, b);
      }
    }
    if OrderDoesNotMatter(cs) {
      forall a, b | Largest(cs, a) && Largest(cs, b) && KeyOf(a) == KeyOf(b)
        ensures a == b
      {
        PutFirst(cs, a);
        PutFirst(cs, b);
      }
    }
  }

  // ----- the two copies of the loop -----

  ghost predicate SomeRelevant(items: seq<Item>, terms: seq<string>, ratio: Ratio, bad: Item -> bool) {
    exists i :: 0 <= i < |items| && Relevant(items[i], terms, ratio) && bad(items[i])
  }

  lemma SomeRelevantCons(items: seq<Item>, terms: seq<string>, ratio: Ratio, bad: Item -> bool)
    requires items != []
    ensures SomeRelevant(items, terms, ratio, bad)
       <==> (Relevant(items[0], terms, ratio) && bad(items[0])) || SomeRelevant(items[1..], terms, ratio, bad)
  {
    assert items == [items[0]] + items[1..];
    assert forall i :: 0 <= i < |items[1..]| ==> items[1..][i] == items[i + 1];
  }

  predicate BadSize(item: Item) {
    item.size.Malformed?
  }

  predicate BadFiles(item: Item) {
    item.files.Malformed?
  }

  predicate BadEither(item: Item) {
    BadSize(item) || BadFiles(item)
  }

  lemma {:induction false} WhenReadingFails(items: seq<Item>, terms: seq<string>, ratio: Ratio)
    ensures Candidates(items, terms, ratio, false).Failure? <==> SomeRelevant(items, terms, ratio, BadSize)
    ensures Candidates(items, terms, ratio, true).Failure? <==> SomeRelevant(items, terms, ratio, BadEither)
    ensures Candidates(items, terms, ratio, true).Success? ==>
              Candidates(items, terms, ratio, true) == Candidates(items, terms, ratio, false)
    ensures forall u :: Candidates(items, terms, ratio, u).Failure? ==>
              Candidates(items, terms, ratio, u) == Failure("ValueError")
    decreases |items|
  {
    if items != [] {
      WhenReadingFails(items[1..], terms, ratio);
      SomeRelevantCons(items, terms, ratio, BadSize);
      SomeRelevantCons(items, terms, ratio, BadEither);
    }
  }

  /** The two adapters return the same results in the same order, or both fail, exactly unless
      an item they read has a file count that does not convert while every size does. */
  lemma CopiesAgree(items: seq<Item>, terms: seq<string>, ratio: Ratio)
    ensures Parsed(items, terms, ratio, true) == Parsed(items, terms, ratio, false)
       <==> SomeRelevant(items, terms, ratio, BadSize) || !SomeRelevant(items, terms, ratio, BadFiles)
  {
    WhenReadingFails(items, terms, ratio);
    assert SomeRelevant(items, terms, ratio, BadEither)
      <==> SomeRelevant(items, terms, ratio, BadSize) || SomeRelevant(items, terms, ratio, BadFiles);
  }

  /** An item whose size converts and whose file count does not. */
  const ODD_ITEM := Item("a", "l", false, "a", "1", Number(1), Malformed)

  /** A feed on which they differ: only the Usenet adapter fails. */
  lemma CopiesDiffer(ratio: Ratio)
    ensures Parsed([ODD_ITEM], ["a"], ratio, true).Failure?
    ensures Parsed([ODD_ITEM], ["a"], ratio, false).Success?
  {
    var items, terms := [ODD_ITEM], ["a"];
    WhenReadingFails(items, terms, ratio);
    assert TermFits(terms[0], ODD_ITEM.title, ratio);
    assert Relevant(items[0], terms, ratio) && BadEither(items[0]);
  }
}
