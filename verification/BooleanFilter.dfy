/** The boolean search filter: words joined by AND, OR and NOT, applied to release names. */
module BooleanFilter {
  import opened Text

  datatype Found = Found(name: string, displayName: string)

  function ReleaseName(r: Found): string {
    Lower(if r.name != "" then r.name else r.displayName)
  }

  // ----- evaluation -----

  /** The meaning of the tokens of one clause; `negate` says that a NOT is waiting for its word. */
  predicate ClauseHolds(name: string, tokens: seq<string>, negate: bool) {
    if tokens == [] then true
    else if Upper(tokens[0]) == "AND" then ClauseHolds(name, tokens[1..], negate)
    else if Upper(tokens[0]) == "NOT" then ClauseHolds(name, tokens[1..], true)
    else Contains(name, Lower(tokens[0])) != negate && ClauseHolds(name, tokens[1..], false)
  }

  /** The stretches of tokens between ORs, with `current` already read. */
  function ClausesFrom(tokens: seq<string>, current: seq<string>): seq<seq<string>>
    decreases |tokens|
  {
    if tokens == [] then [current]
    else if Upper(tokens[0]) == "OR" then [current] + ClausesFrom(tokens[1..], [])
    else ClausesFrom(tokens[1..], current + [tokens[0]])
  }

  function Clauses(tokens: seq<string>): seq<seq<string>> {
    ClausesFrom(tokens, [])
  }

  predicate AnyClause(name: string, clauses: seq<seq<string>>) {
    exists i :: 0 <= i < |clauses| && ClauseHolds(name, clauses[i], false)
  }

  predicate Matches(expr: string, r: Found) {
    AnyClause(ReleaseName(r), Clauses(Split(expr)))
  }

  function Filter(results: seq<Found>, p: Found -> bool): seq<Found> {
    if results == [] then []
    else (if p(results[0]) then [results[0]] else []) + Filter(results[1..], p)
  }

  /** The results that an expression keeps. */
  function Keep(results: seq<Found>, expr: string): seq<Found> {
    Filter(results, r => Matches(expr, r))
  }

  predicate AllIn(name: string, words: seq<string>) {
    forall i :: 0 <= i < |words| ==> Contains(name, words[i])
  }

  predicate NoneIn(name: string, words: seq<string>) {
    forall i :: 0 <= i < |words| ==> !Contains(name, words[i])
  }

  method EvalAndClause(name: string, clause: seq<string>) returns (holds: bool)
    ensures holds == ClauseHolds(name, clause, false)
  {
    var mustContain: seq<string>, mustNotContain: seq<string> := [], [];
    var negateNext := false;
    assert clause[0..] == clause;
    for i := 0 to |clause|
      invariant ClauseHolds(name, clause, false)
             == (AllIn(name, mustContain) && NoneIn(name, mustNotContain) && ClauseHolds(name, clause[i..], negateNext))
    {
      var upper := Upper(clause[i]);
      assert clause[i..][1..] == clause[i + 1..];
      if upper == "AND" {
      } else if upper == "NOT" {
        negateNext := true;
      } else if negateNext {
        mustNotContain := Appended(name, mustNotContain, Lower(clause[i]));
        negateNext := false;
      } else {
        mustContain := Appended(name, mustContain, Lower(clause[i]));
      }
    }
    holds := AllIn(name, mustContain) && NoneIn(name, mustNotContain);
  }

  function Appended(name: string, words: seq<string>, w: string): (r: seq<string>)
    ensures AllIn(name, r) == (AllIn(name, words) && Contains(name, w))
    ensures NoneIn(name, r) == (NoneIn(name, words) && !Contains(name, w))
  {
    var r := words + [w];
    assert r[|words|] == w && forall i :: 0 <= i < |words| ==> r[i] == words[i];
    r
  }

  method Match(name: string, expression: string) returns (found: bool)
    ensures found == AnyClause(name, Clauses(Split(expression)))
  {
    StripSplit(expression);
    var tokens := Split(Strip(expression));
    if tokens == [] {
      assert ClauseHolds(name, Clauses(tokens)[0], false);
      return true;
    }
    var orClauses: seq<seq<string>>, current: seq<string> := [], [];
    assert tokens[0..] == tokens;
    for i := 0 to |tokens|
      invariant orClauses + ClausesFrom(tokens[i..], current) == Clauses(tokens)
    {
      assert tokens[i..][1..] == tokens[i + 1..];
      if Upper(tokens[i]) == "OR" {
        orClauses := orClauses + [current];
        current := [];
      } else {
        current := current + [tokens[i]];
      }
    }
    orClauses := orClauses + [current];
    for i := 0 to |orClauses|
      invariant forall j :: 0 <= j < i ==> !ClauseHolds(name, orClauses[j], false)
    {
      var holds := EvalAndClause(name, orClauses[i]);
      if holds {
        return true;
      }
    }
    found := false;
  }

  /** The filter as it is called: a blank expression keeps everything. */
  function ApplyBoolean(results: seq<Found>, expr: string): seq<Found> {
    if Strip(expr) == "" then results else Filter(results, r => Matches(Strip(expr), r))
  }

  /** It keeps, in order, exactly the results that the expression matches. */
  lemma ApplyBooleanKeeps(results: seq<Found>, expr: string)
    ensures ApplyBoolean(results, expr) == Keep(results, expr)
  {
    if Strip(expr) == "" {
      BlankKeepsAll(results, expr);
    } else {
      StripSplit(expr);
      FilterSame(results, r => Matches(Strip(expr), r), r => Matches(expr, r));
    }
  }

  lemma {:induction false} FilterSame(results: seq<Found>, p: Found -> bool, q: Found -> bool)
    requires forall r :: p(r) == q(r)
    ensures Filter(results, p) == Filter(results, q)
    decreases |results|
  {
    if results != [] {
      FilterSame(results[1..], p, q);
    }
  }

  lemma BlankMatches(expr: string, r: Found)
    requires Split(expr) == []
    ensures Matches(expr, r)
  {
    assert ClauseHolds(ReleaseName(r), Clauses([])[0], false);
  }

  lemma {:induction false} BlankKeepsAll(results: seq<Found>, expr: string)
    requires Strip(expr) == ""
    ensures Keep(results, expr) == results
    decreases |results|
  {
    if results != [] {
      BlankHasNoWords(expr);
      BlankMatches(expr, results[0]);
      BlankKeepsAll(results[1..], expr);
    }
  }

  /** The substring filter; a blank query keeps everything. */
  function ApplyExact(results: seq<Found>, query: string): seq<Found> {
    var q := Strip(Lower(query));
    if q == "" then results else Filter(results, r => Contains(ReleaseName(r), q))
  }
}
