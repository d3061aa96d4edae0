/** Reading an indexer's feed: fuzzy matching, collapsing the items of one release to the
    largest, and ranking. The Usenet and the Torznab adapters hold two copies of the loop. */
module Feed {
  import opened Results
  import opened Text
  import opened Ordering

  /** A numeric attribute of an item: absent or empty reads as zero, other text may fail to convert. */
  datatype Amount = Number(n: int) | Malformed

  /** An item of the feed, with what the title patterns make of it. */
  datatype Item = Item(
    title: string,
    link: string,
    segment: bool,
    displayName: string,
    version: string,
    size: Amount,
    files: Amount)

  type Ratio = (string, string) -> real

  const FUZZY_MATCH_THRESHOLD := 0.6

  // ----- matching a title -----

  predicate TermFits(term: string, title: string, ratio: Ratio) {
    term != "" && (Contains(Lower(title), Lower(term)) || ratio(Lower(term), Lower(title)) >= FUZZY_MATCH_THRESHOLD)
  }

  predicate Fits(terms: seq<string>, title: string, ratio: Ratio) {
    exists i :: 0 <= i < |terms| && TermFits(terms[i], title, ratio)
  }

  /** The term can be found in the title in whatever case, or is similar enough to it. */
  lemma TermFitsMeans(term: string, title: string, ratio: Ratio)
    ensures TermFits(term, title, ratio)
       <==> term != "" && (Occurs(title, term) || ratio(Lower(term), Lower(title)) >= 0.6)
  {
    ContainsIgnoresCase(title, term);
  }

  method FuzzyMatches(terms: seq<string>, title: string, ratio: Ratio) returns (matches: bool)
    ensures matches == Fits(terms, title, ratio)
    ensures matches <==>
              exists i :: 0 <= i < |terms| && terms[i] != ""
                          && (Occurs(title, terms[i]) || ratio(Lower(terms[i]), Lower(title)) >= 0.6)
  {
    forall i | 0 <= i < |terms|
      ensures TermFits(terms[i], title, ratio)
         <==> terms[i] != "" && (Occurs(title, terms[i]) || ratio(Lower(terms[i]), Lower(title)) >= 0.6)
    {
      TermFitsMeans(terms[i], title, ratio);
    }
    var titleLower := Lower(title);
    hide Occurs, Contains, Lower;
    for i := 0 to |terms|
      invariant forall j :: 0 <= j < i ==> !TermFits(terms[j], title, ratio)
    {
      var term := terms[i];
      if term == "" {
        continue;
      }
      var termLower := Lower(term);
      if Contains(titleLower, termLower) {
        return true;
      }
      if ratio(termLower, titleLower) >= FUZZY_MATCH_THRESHOLD {
        return true;
      }
    }
    return false;
  }

  /** The score of the terms from the best ratio so far: 1.0 as soon as a term is contained. */
  function Score(terms: seq<string>, title: string, ratio: Ratio, best: real): real
    decreases |terms|
  {
    if terms == [] then best
    else if terms[0] == "" then Score(terms[1..], title, ratio, best)
    else if Contains(Lower(title), Lower(terms[0])) then 1.0
    else
      var r := ratio(Lower(terms[0]), Lower(title));
      Score(terms[1..], title, ratio, if r > best then r else best)
  }

  predicate IsContained(terms: seq<string>, title: string) {
    exists i :: 0 <= i < |terms| && terms[i] != "" && Occurs(title, terms[i])
  }

  /** 1.0 if the title contains a term in whatever case; otherwise the greatest of the terms' ratios, and
      0.0 if none is above it. */
  predicate IsBestScore(terms: seq<string>, title: string, ratio: Ratio, best: real) {
    if IsContained(terms, title) then best == 1.0
    else
      && best >= 0.0
      && (forall i :: 0 <= i < |terms| && terms[i] != "" ==> best >= ratio(Lower(terms[i]), Lower(title)))
      && (best == 0.0
          || exists i :: 0 <= i < |terms| && terms[i] != "" && best == ratio(Lower(terms[i]), Lower(title)))
  }

  /** The score from a best ratio so far. */
  predicate IsScoreFrom(terms: seq<string>, title: string, ratio: Ratio, best: real, score: real) {
    if IsContained(terms, title) then score == 1.0
    else
      && score >= best
      && (forall i :: 0 <= i < |terms| && terms[i] != "" ==> score >= ratio(Lower(terms[i]), Lower(title)))
      && (score == best
          || exists i :: 0 <= i < |terms| && terms[i] != "" && score == ratio(Lower(terms[i]), Lower(title)))
  }

  lemma ContainedCons(terms: seq<string>, title: string)
    requires terms != []
    ensures IsContained(terms, title) <==> (terms[0] != "" && Occurs(title, terms[0])) || IsContained(terms[1..], title)
  {
    hide Occurs;
    assert terms == [terms[0]] + terms[1..];
  }

  lemma ScoreFromCons(terms: seq<string>, title: string, ratio: Ratio, best: real, score: real)
    requires terms != [] && !(terms[0] != "" && Occurs(title, terms[0]))
    requires var r := ratio(Lower(terms[0]), Lower(title));
             IsScoreFrom(terms[1..], title, ratio, if terms[0] != "" && r > best then r else best, score)
    ensures IsScoreFrom(terms, title, ratio, best, score)
  {
    ContainedCons(terms, title);
    hide IsContained, Lower, Occurs;
    var rest := terms[1..];
    assert forall i :: 0 < i < |terms| ==> terms[i] == rest[i - 1];
    assert forall i :: 0 <= i < |rest| ==> rest[i] == terms[i + 1];
  }

  lemma {:induction false} ScoreFromMeans(terms: seq<string>, title: string, ratio: Ratio, best: real)
    ensures IsScoreFrom(terms, title, ratio, best, Score(terms, title, ratio, best))
    decreases |terms|
  {
    if terms != [] {
      ContainsIgnoresCase(title, terms[0]);
      ContainedCons(terms, title);
      hide IsScoreFrom, IsContained, Lower, Occurs, Contains;
      var r := ratio(Lower(terms[0]), Lower(title));
      var next := if terms[0] != "" && r > best then r else best;
      ScoreFromMeans(terms[1..], title, ratio, next);
      if terms[0] != "" && Occurs(title, terms[0]) {
        FoundScore(terms, title, ratio, best);
      } else {
        ScoreFromCons(terms, title, ratio, best, Score(terms, title, ratio, best));
      }
    }
  }

  lemma FoundScore(terms: seq<string>, title: string, ratio: Ratio, best: real)
    requires IsContained(terms, title)
    ensures IsScoreFrom(terms, title, ratio, best, 1.0)
  {
  }

  lemma ScoreIsBest(terms: seq<string>, title: string, ratio: Ratio)
    ensures IsBestScore(terms, title, ratio, Score(terms, title, ratio, 0.0))
  {
    ScoreFromMeans(terms, title, ratio, 0.0);
    hide Score, IsContained, Lower;
  }

  method MatchScore(terms: seq<string>, title: string, ratio: Ratio) returns (best: real)
    ensures best == Score(terms, title, ratio, 0.0)
    ensures IsBestScore(terms, title, ratio, best)
  {
    ScoreIsBest(terms, title, ratio);
    hide IsBestScore, Contains, Lower;
    var titleLower := Lower(title);
    best := 0.0;
    assert terms[0..] == terms;
    for i := 0 to |terms|
      invariant Score(terms, title, ratio, 0.0) == Score(terms[i..], title, ratio, best)
    {
      var term := terms[i];
      assert terms[i..][1..] == terms[i + 1..];
      if term == "" {
        continue;
      }
      var termLower := Lower(term);
      if Contains(titleLower, termLower) {
        return 1.0;
      }
      var r := ratio(termLower, titleLower);
      if r > best {
        best := r;
      }
    }
  }

  lemma {:induction false} ScoreReaches(terms: seq<string>, title: string, ratio: Ratio, best: real)
    ensures Score(terms, title, ratio, best) >= FUZZY_MATCH_THRESHOLD
       <==> Fits(terms, title, ratio) || best >= FUZZY_MATCH_THRESHOLD
    decreases |terms|
  {
    if terms != [] {
      var rest := terms[1..];
      assert terms == [terms[0]] + rest;
      assert Fits(terms, title, ratio) <==> TermFits(terms[0], title, ratio) || Fits(rest, title, ratio);
      var r := ratio(Lower(terms[0]), Lower(title));
      ScoreReaches(rest, title, ratio, if terms[0] != "" && r > best then r else best);
    }
  }

  /** The two loops over the terms agree: a title matches exactly when its score reaches the threshold. */
  lemma MatchAgreesWithScore(terms: seq<string>, title: string, ratio: Ratio)
    ensures Fits(terms, title, ratio) <==> Score(terms, title, ratio, 0.0) >= FUZZY_MATCH_THRESHOLD
  {
    ScoreReaches(terms, title, ratio, 0.0);
  }

  /** The nearest integer, the even one of two. */
  function Nearest(x: real): int {
    var down := x.Floor;
    var part := x - down as real;
    if part < 0.5 || (part == 0.5 && down % 2 == 0) then down else down + 1
  }

  /** To three decimals, halves to even. */
  function Round3(x: real): real {
    Nearest(x * 1000.0) as real / 1000.0
  }

  lemma NearestMeans(x: real, y: real)
    ensures -0.5 <= Nearest(x) as real - x <= 0.5
    ensures Nearest(x) as real - x in {-0.5, 0.5} ==> Nearest(x) % 2 == 0
    ensures x <= y ==> Nearest(x) <= Nearest(y)
  {
    assert x <= y ==> x.Floor <= y.Floor;
  }

  /** A score is a whole number of thousandths, nearest to what is rounded, and even if two are as near;
      so a greater number never gets a smaller score. */
  lemma Round3Means(x: real, y: real) returns (n: int)
    ensures Round3(x) * 1000.0 == n as real
    ensures -0.0005 <= Round3(x) - x <= 0.0005
    ensures Round3(x) - x in {-0.0005, 0.0005} ==> n % 2 == 0
    ensures x <= y ==> Round3(x) <= Round3(y)
  {
    n := Nearest(x * 1000.0);
    NearestMeans(x * 1000.0, y * 1000.0);
    hide Nearest;
  }

  // ----- collapsing -----

  datatype Candidate = Candidate(item: Item, size: int, score: real)

  datatype Key = Key(name: string, version: string)

  function KeyOf(c: Candidate): Key {
    Key(Lower(c.item.displayName), c.item.version)
  }

  /** Candidates collapse if their names are the same up to the case of letters, and their versions are the same. */
  lemma KeyMeans(a: Candidate, b: Candidate)
    ensures KeyOf(a) == KeyOf(b)
       <==> SameText(a.item.displayName, b.item.displayName) && a.item.version == b.item.version
  {
    CaseMeans(a.item.displayName, b.item.displayName);
  }

  /** An insertion-ordered dictionary: replacing a value keeps the place of its key. */
  datatype Dedup = Dedup(keys: seq<Key>, best: map<Key, Candidate>)

  const EMPTY_DEDUP := Dedup([], map[])

  function Add(d: Dedup, c: Candidate): Dedup {
    var k := KeyOf(c);
    if k !in d.best then Dedup(d.keys + [k], d.best[k := c])
    else if c.size > d.best[k].size then d.(best := d.best[k := c])
    else d
  }

  function Fold(d: Dedup, cs: seq<Candidate>): Dedup
    decreases |cs|
  {
    if cs == [] then d else Fold(Add(d, cs[0]), cs[1..])
  }

  predicate Consistent(d: Dedup) {
    && (set k | k in d.keys) == d.best.Keys
    && (forall i, j :: 0 <= i < j < |d.keys| ==> d.keys[i] != d.keys[j])
    && (forall k :: k in d.best ==> KeyOf(d.best[k]) == k)
  }

  function Values(d: Dedup): (vs: seq<Candidate>)
    requires Consistent(d)
    ensures |vs| == |d.keys|
  {
    seq(|d.keys|, i requires 0 <= i < |d.keys| => d.best[d.keys[i]])
  }

  lemma AddConsistent(d: Dedup, c: Candidate)
    requires Consistent(d)
    ensures Consistent(Add(d, c))
  {
    var d' := Add(d, c);
    assert forall k :: k in d.keys <==> k in d.best;
    assert KeyOf(c) !in d.best ==> forall k :: k in d'.keys <==> k in d.keys || k == KeyOf(c);
  }

  lemma {:induction false} FoldConsistent(d: Dedup, cs: seq<Candidate>)
    requires Consistent(d)
    ensures Consistent(Fold(d, cs))
    decreases |cs|
  {
    if cs != [] {
      AddConsistent(d, cs[0]);
      FoldConsistent(Add(d, cs[0]), cs[1..]);
    }
  }

  lemma {:induction false} FoldConcat(d: Dedup, a: seq<Candidate>, b: seq<Candidate>)
    ensures Fold(d, a + b) == Fold(Fold(d, a), b)
    decreases |a|
  {
    if a == [] {
      assert a + b == b;
    } else {
      assert (a + b)[1..] == a[1..] + b;
      FoldConcat(Add(d, a[0]), a[1..], b);
    }
  }

  lemma FoldLast(cs: seq<Candidate>, c: Candidate)
    ensures Fold(EMPTY_DEDUP, cs + [c]) == Add(Fold(EMPTY_DEDUP, cs), c)
  {
    FoldConcat(EMPTY_DEDUP, cs, [c]);
    assert Fold(Fold(EMPTY_DEDUP, cs), [c]) == Fold(Add(Fold(EMPTY_DEDUP, cs), c), [c][1..]);
  }

  // ----- the two parsers -----

  /** An item that the loop does not skip. */
  predicate Relevant(item: Item, terms: seq<string>, ratio: Ratio) {
    item.title != "" && item.link != "" && !item.segment && Fits(terms, item.title, ratio)
  }

  /** The candidates of a feed, in order; only the Usenet copy also converts the file count. */
  function Candidates(items: seq<Item>, terms: seq<string>, ratio: Ratio, usenet: bool): Result<seq<Candidate>>
    decreases |items|
  {
    if items == [] then Success([])
    else
      var item := items[0];
      if !Relevant(item, terms, ratio) then Candidates(items[1..], terms, ratio, usenet)
      else if item.size.Malformed? || (usenet && item.files.Malformed?) then Failure("ValueError")
      else
        var c := Candidate(item, item.size.n, Round3(Score(terms, item.title, ratio, 0.0)));
        match Candidates(items[1..], terms, ratio, usenet)
        case Success(cs) => Success([c] + cs)
        case Failure(e) => Failure(e)
  }

  /** An item by itself: skipped without a title or a link, as a segment, or with a best score below 0.6; failing
      on a number that does not convert; otherwise a candidate with its own size and its rounded score. */
  lemma CandidateOf(item: Item, terms: seq<string>, ratio: Ratio, usenet: bool, best: real)
    requires IsBestScore(terms, item.title, ratio, best)
    ensures Candidates([item], terms, ratio, usenet)
         == if item.title == "" || item.link == "" || item.segment || best < 0.6 then Success([])
            else if item.size == Malformed || (usenet && item.files == Malformed) then Failure("ValueError")
            else Success([Candidate(item, item.size.n, Round3(best))])
  {
    var score := Score(terms, item.title, ratio, 0.0);
    ScoreIsBest(terms, item.title, ratio);
    assert score == best by {
      hide IsContained, Score, Lower;
    }
    MatchAgreesWithScore(terms, item.title, ratio);
    assert [item][1..] == [] && Candidates([], terms, ratio, usenet) == Success([]);
    hide Fits, IsBestScore, Score, Round3;
    if Relevant(item, terms, ratio) && item.size.Number? && !(usenet && item.files.Malformed?) {
      assert [Candidate(item, item.size.n, Round3(best))] + [] == [Candidate(item, item.size.n, Round3(best))];
    }
  }

  lemma {:induction false} OnlyValueErrors(items: seq<Item>, terms: seq<string>, ratio: Ratio, usenet: bool)
    ensures Candidates(items, terms, ratio, usenet).Failure? ==>
              Candidates(items, terms, ratio, usenet) == Failure("ValueError")
    decreases |items|
  {
    hide Relevant, Score, Round3;
    if items != [] {
      OnlyValueErrors(items[1..], terms, ratio, usenet);
    }
  }

  /** And a feed gives the candidates of its items in their order, or fails if one of them does. */
  lemma {:induction false} CandidatesConcat(a: seq<Item>, b: seq<Item>, terms: seq<string>, ratio: Ratio, usenet: bool)
    ensures var x, y := Candidates(a, terms, ratio, usenet), Candidates(b, terms, ratio, usenet);
            Candidates(a + b, terms, ratio, usenet)
            == if x.Failure? || y.Failure? then Failure("ValueError") else Success(x.value + y.value)
    decreases |a|
  {
    hide Relevant, Score, Round3;
    var y := Candidates(b, terms, ratio, usenet);
    if a == [] {
      assert a + b == b;
      OnlyValueErrors(b, terms, ratio, usenet);
      assert y.Success? ==> [] + y.value == y.value;
    } else {
      assert (a + b)[1..] == a[1..] + b;
      CandidatesConcat(a[1..], b, terms, ratio, usenet);
      var x := Candidates(a, terms, ratio, usenet);
      if x.Success? && y.Success? && Relevant(a[0], terms, ratio) {
        assert x.value + y.value == [x.value[0]] + (Candidates(a[1..], terms, ratio, usenet).value + y.value);
      }
    }
  }

  /** A higher (score, size) goes first. */
  predicate Over(a: Candidate, b: Candidate) {
    a.score > b.score || (a.score == b.score && a.size > b.size)
  }

  /** The kept candidates, in dictionary order. */
  function Survivors(cs: seq<Candidate>): seq<Candidate> {
    FoldConsistent(EMPTY_DEDUP, cs);
    Values(Fold(EMPTY_DEDUP, cs))
  }

  function Ranked(cs: seq<Candidate>): seq<Candidate> {
    Sort(Survivors(cs), Over)
  }

  function Parsed(items: seq<Item>, terms: seq<string>, ratio: Ratio, usenet: bool): Result<seq<Candidate>> {
    match Candidates(items, terms, ratio, usenet)
    case Success(cs) => Success(Ranked(cs))
    case Failure(e) => Failure(e)
  }

  method ParseNewznabResponse(items: seq<Item>, terms: seq<string>, ratio: Ratio) returns (r: Result<seq<Candidate>>)
    ensures r == Parsed(items, terms, ratio, true)
  {
    var dedup := EMPTY_DEDUP;
    ghost var read: seq<Candidate> := [];
    assert items[0..] == items;
    PrependNone(Candidates(items, terms, ratio, true));
    for i := 0 to |items|
      invariant dedup == Fold(EMPTY_DEDUP, read)
      invariant Prepend(read, Candidates(items[i..], terms, ratio, true)) == Candidates(items, terms, ratio, true)
    {
      var item := items[i];
      assert items[i..][1..] == items[i + 1..];
      if item.title == "" || item.link == "" {
        continue;
      }
      if item.segment {
        continue;
      }
      var matches := FuzzyMatches(terms, item.title, ratio);
      if !matches {
        continue;
      }
      if item.size.Malformed? {
        return Failure("ValueError");
      }
      var size := item.size.n;
      var score := MatchScore(terms, item.title, ratio);
      if item.files.Malformed? {
        return Failure("ValueError");
      }
      var candidate := Candidate(item, size, Round3(score));
      var k := KeyOf(candidate);
      if k !in dedup.best {
        dedup := Dedup(dedup.keys + [k], dedup.best[k := candidate]);
      } else if size > dedup.best[k].size {
        dedup := dedup.(best := dedup.best[k := candidate]);
      }
      FoldLast(read, candidate);
      PrependMore(read, candidate, Candidates(items[i + 1..], terms, ratio, true));
      read := read + [candidate];
    }
    FoldConsistent(EMPTY_DEDUP, read);
    assert Prepend(read, Candidates([], terms, ratio, true)) == Success(read + []);
    assert read + [] == read;
    r := Success(Sort(Values(dedup), Over));
  }

  method ParseTorznabResponse(items: seq<Item>, terms: seq<string>, ratio: Ratio) returns (r: Result<seq<Candidate>>)
    ensures r == Parsed(items, terms, ratio, false)
  {
    var dedup := EMPTY_DEDUP;
    ghost var read: seq<Candidate> := [];
    assert items[0..] == items;
    PrependNone(Candidates(items, terms, ratio, false));
    for i := 0 to |items|
      invariant dedup == Fold(EMPTY_DEDUP, read)
      invariant Prepend(read, Candidates(items[i..], terms, ratio, false)) == Candidates(items, terms, ratio, false)
    {
      var item := items[i];
      assert items[i..][1..] == items[i + 1..];
      if item.title == "" || item.link == "" || item.segment {
        continue;
      }
      var matches := FuzzyMatches(terms, item.title, ratio);
      if !matches {
        continue;
      }
      if item.size.Malformed? {
        return Failure("ValueError");
      }
      var score := MatchScore(terms, item.title, ratio);
      var candidate := Candidate(item, item.size.n, Round3(score));
      dedup := Add(dedup, candidate);
      FoldLast(read, candidate);
      PrependMore(read, candidate, Candidates(items[i + 1..], terms, ratio, false));
      read := read + [candidate];
    }
    FoldConsistent(EMPTY_DEDUP, read);
    assert Prepend(read, Candidates([], terms, ratio, false)) == Success(read + []);
    assert read + [] == read;
    r := Success(Sort(Values(dedup), Over));
  }

  ghost function Prepend(read: seq<Candidate>, rest: Result<seq<Candidate>>): Result<seq<Candidate>> {
    match rest
    case Success(cs) => Success(read + cs)
    case Failure(e) => Failure(e)
  }

  lemma PrependNone(rest: Result<seq<Candidate>>)
    ensures Prepend([], rest) == rest
  {
    if rest.Success? {
      assert [] + rest.value == rest.value;
    }
  }

  lemma PrependMore(read: seq<Candidate>, c: Candidate, rest: Result<seq<Candidate>>)
    ensures Prepend(read + [c], rest) == Prepend(read, Prepend([c], rest))
  {
    if rest.Success? {
      assert read + [c] + rest.value == read + ([c] + rest.value);
    }
  }
}
