/** The search filters ignore the case of letters, in the query and in the names, and nothing else. */
module SearchCase {
  import opened Text
  import opened BooleanFilter

  // ----- queries -----

  lemma {:induction false} ClauseHoldsLower(name: string, tokens: seq<string>, negate: bool)
    ensures ClauseHolds(name, LowerAll(tokens), negate) == ClauseHolds(name, tokens, negate)
    decreases |tokens|
  {
    if tokens != [] {
      var rest := tokens[1..];
      assert LowerAll(tokens)[0] == Lower(tokens[0]) && LowerAll(tokens)[1..] == LowerAll(rest);
      LowerTwice(tokens[0]);
      hide LowerAll, Lower, Upper, Contains;
      ClauseHoldsLower(name, rest, negate);
      ClauseHoldsLower(name, rest, true);
      ClauseHoldsLower(name, rest, false);
    }
  }

  function LowerClauses(clauses: seq<seq<string>>): seq<seq<string>> {
    seq(|clauses|, i requires 0 <= i < |clauses| => LowerAll(clauses[i]))
  }

  lemma {:induction false} ClausesFromLower(tokens: seq<string>, current: seq<string>)
    ensures ClausesFrom(LowerAll(tokens), LowerAll(current)) == LowerClauses(ClausesFrom(tokens, current))
    decreases |tokens|
  {
    if tokens != [] {
      var rest := tokens[1..];
      assert LowerAll(tokens)[0] == Lower(tokens[0]) && LowerAll(tokens)[1..] == LowerAll(rest);
      LowerTwice(tokens[0]);
      assert LowerAll([]) == [];
      LowerAllConcat(current, [tokens[0]]);
      assert LowerAll([tokens[0]]) == [Lower(tokens[0])];
      LowerClausesCons(current, ClausesFrom(rest, []));
      hide LowerAll, LowerClauses, Lower, Upper;
      ClausesFromLower(rest, []);
      ClausesFromLower(rest, current + [tokens[0]]);
    }
  }

  lemma LowerClausesCons(first: seq<string>, rest: seq<seq<string>>)
    ensures LowerClauses([first] + rest) == [LowerAll(first)] + LowerClauses(rest)
  {
  }

  lemma MatchesLower(expr: string, r: Found)
    ensures Matches(Lower(expr), r) == Matches(expr, r)
  {
    var name, clauses := ReleaseName(r), Clauses(Split(expr));
    SplitLower(expr);
    ClausesFromLower(Split(expr), []);
    assert LowerAll([]) == [];
    assert Clauses(Split(Lower(expr))) == LowerClauses(clauses);
    hide Split, Clauses, ReleaseName, LowerAll, Lower, ClauseHolds;
    forall i | 0 <= i < |clauses|
      ensures ClauseHolds(name, LowerClauses(clauses)[i], false) == ClauseHolds(name, clauses[i], false)
    {
      ClauseHoldsLower(name, clauses[i], false);
    }
  }

  /** Both names are the same up to the case of letters. */
  predicate SameFound(a: Found, b: Found) {
    SameText(a.name, b.name) && SameText(a.displayName, b.displayName)
  }

  predicate SameResults(a: seq<Found>, b: seq<Found>) {
    |a| == |b| && forall i :: 0 <= i < |a| ==> SameFound(a[i], b[i])
  }

  lemma SameName(a: Found, b: Found)
    requires SameFound(a, b)
    ensures ReleaseName(a) == ReleaseName(b)
  {
    CaseMeans(a.name, b.name);
    CaseMeans(a.displayName, b.displayName);
  }

  lemma MatchIgnoresCase(expr: string, other: string, a: Found, b: Found)
    requires SameText(expr, other) && SameFound(a, b)
    ensures Matches(expr, a) == Matches(other, b)
  {
    MatchesLower(expr, a);
    MatchesLower(other, b);
    CaseMeans(expr, other);
    SameName(a, b);
    hide Split, Clauses, ReleaseName, Lower, AnyClause;
  }

  lemma {:induction false} SameFilters(a: seq<Found>, b: seq<Found>, p: Found -> bool, q: Found -> bool)
    requires SameResults(a, b) && forall x, y :: SameFound(x, y) ==> p(x) == q(y)
    ensures SameResults(Filter(a, p), Filter(b, q))
    decreases |a|
  {
    hide SameFound;
    if a != [] {
      assert SameFound(a[0], b[0]);
      SameFilters(a[1..], b[1..], p, q);
    }
  }

  /** A query and results that differ from others in the case of letters only: the boolean filter keeps
      the same results of both, in the same order. */
  lemma BooleanIgnoresCase(a: seq<Found>, b: seq<Found>, expr: string, other: string)
    requires SameResults(a, b) && SameText(expr, other)
    ensures SameResults(ApplyBoolean(a, expr), ApplyBoolean(b, other))
  {
    ApplyBooleanKeeps(a, expr);
    ApplyBooleanKeeps(b, other);
    forall x, y | SameFound(x, y)
      ensures Matches(expr, x) == Matches(other, y)
    {
      MatchIgnoresCase(expr, other, x, y);
    }
    SameFilters(a, b, r => Matches(expr, r), r => Matches(other, r));
  }

  // ----- the substring filter -----


  lemma EverythingOccurs(hay: string)
    ensures Occurs(hay, "")
  {
    assert OccursAt(hay, "", 0);
  }

  /** The substring filter keeps, in order, the results in whose name the stripped query occurs, in
      whatever case; a blank query occurs in every name. */
  lemma ExactKeeps(results: seq<Found>, query: string)
    ensures ApplyExact(results, query)
         == Filter(results, (r: Found) => Occurs(if r.name != "" then r.name else r.displayName, Strip(query)))
  {
    var q := Strip(query);
    var p := (r: Found) => Occurs(if r.name != "" then r.name else r.displayName, q);
    StripLower(query);
    assert |Lower(q)| == |q|;
    forall r: Found
      ensures p(r) == Contains(ReleaseName(r), Lower(q))
    {
      ContainsIgnoresCase(if r.name != "" then r.name else r.displayName, q);
    }
    hide Strip, Lower, Occurs, Contains, ReleaseName;
    if q == "" {
      forall r: Found
        ensures p(r)
      {
        EverythingOccurs(if r.name != "" then r.name else r.displayName);
      }
      AllPass(results, p);
    } else {
      FilterSame(results, r => Contains(ReleaseName(r), Lower(q)), p);
    }
  }

  lemma {:induction false} AllPass(results: seq<Found>, p: Found -> bool)
    requires forall r :: p(r)
    ensures Filter(results, p) == results
    decreases |results|
  {
    if results != [] {
      AllPass(results[1..], p);
    }
  }

  lemma ExactIgnoresCase(a: seq<Found>, b: seq<Found>, query: string, other: string)
    requires SameResults(a, b) && SameText(query, other)
    ensures SameResults(ApplyExact(a, query), ApplyExact(b, other))
  {
    CaseMeans(query, other);
    var q := Strip(Lower(query));
    hide Strip, Lower, Contains;
    forall x, y | SameFound(x, y)
      ensures Contains(ReleaseName(x), q) == Contains(ReleaseName(y), q)
    {
      SameName(x, y);
    }
    SameFilters(a, b, r => Contains(ReleaseName(r), q), r => Contains(ReleaseName(r), q));
  }
}
