/** Queries in disjunctive normal form, how they are written down, and what the boolean
    filter makes of them; and the laws of OR and AND on arbitrary expressions. */
module SearchQueries {
  import opened Text
  import opened BooleanFilter

  datatype Glue = Juxtaposed | Conjoined

  /** One word of a clause. The glue joins it to the word before; the first word's is not written. */
  datatype Term = Term(glue: Glue, negated: bool, word: string)

  type Clause = seq<Term>
  type Query = seq<Clause>

  /** How the operators are typed and what whitespace stands between, before and after. */
  datatype Spelling = Spelling(and: string, or: string, not: string, gap: string, lead: string, trail: string)

  predicate ValidTerm(t: Term) {
    && t.word != ""
    && NoSpace(t.word)
    && !SameText(t.word, "AND") && !SameText(t.word, "OR") && !SameText(t.word, "NOT")
  }

  predicate ValidClause(c: Clause) {
    c != [] && forall i :: 0 <= i < |c| ==> ValidTerm(c[i])
  }

  predicate ValidQuery(q: Query) {
    q != [] && forall i :: 0 <= i < |q| ==> ValidClause(q[i])
  }

  /** The operators may be typed in any case. */
  predicate ValidSpelling(sp: Spelling) {
    && SameText(sp.and, "AND") && SameText(sp.or, "OR") && SameText(sp.not, "NOT")
    && sp.gap != [] && AllSpace(sp.gap) && AllSpace(sp.lead) && AllSpace(sp.trail)
  }

  lemma UpperOperator(w: string)
    ensures forall op :: op in {"AND", "OR", "NOT"} ==> (SameText(w, op) <==> Upper(w) == op)
  {
    assert Upper("AND") == "AND" && Upper("OR") == "OR" && Upper("NOT") == "NOT";
    hide Upper;
    forall op | op in {"AND", "OR", "NOT"}
      ensures SameText(w, op) <==> Upper(w) == op
    {
      CaseMeans(w, op);
    }
  }

  lemma UpperTerm(t: Term)
    requires ValidTerm(t)
    ensures Upper(t.word) !in {"AND", "OR", "NOT"}
  {
    UpperOperator(t.word);
  }

  lemma UpperSpelling(sp: Spelling)
    requires ValidSpelling(sp)
    ensures Upper(sp.and) == "AND" && Upper(sp.or) == "OR" && Upper(sp.not) == "NOT"
  {
    UpperOperator(sp.and);
    UpperOperator(sp.or);
    UpperOperator(sp.not);
  }

  // ----- the meaning of a query -----

  /** The word occurs in the name, in whatever case, or is negated and does not. */
  predicate TermHolds(t: Term, name: string) {
    Occurs(name, t.word) != t.negated
  }

  predicate ClauseDenotes(c: Clause, name: string) {
    forall i :: 0 <= i < |c| ==> TermHolds(c[i], name)
  }

  /** Some clause has all its words in the name, except the negated ones. */
  predicate Denotes(q: Query, name: string) {
    exists i :: 0 <= i < |q| && ClauseDenotes(q[i], name)
  }

  // ----- printing -----

  function TermTokens(t: Term, first: bool, sp: Spelling): seq<string> {
    (if !first && t.glue == Conjoined then [sp.and] else []) + (if t.negated then [sp.not] else []) + [t.word]
  }

  function ClauseTokens(c: Clause, first: bool, sp: Spelling): seq<string> {
    if c == [] then [] else TermTokens(c[0], first, sp) + ClauseTokens(c[1..], false, sp)
  }

  function QueryTokens(q: Query, sp: Spelling): seq<string> {
    if q == [] then []
    else if |q| == 1 then ClauseTokens(q[0], true, sp)
    else ClauseTokens(q[0], true, sp) + [sp.or] + QueryTokens(q[1..], sp)
  }

  function Join(tokens: seq<string>, gap: string): string {
    if tokens == [] then []
    else if |tokens| == 1 then tokens[0]
    else tokens[0] + gap + Join(tokens[1..], gap)
  }

  function Print(q: Query, sp: Spelling): string {
    sp.lead + Join(QueryTokens(q, sp), sp.gap) + sp.trail
  }

  // ----- reading back -----

  predicate PlainTokens(tokens: seq<string>) {
    forall i :: 0 <= i < |tokens| ==> tokens[i] != [] && NoSpace(tokens[i])
  }

  lemma {:induction false} SplitJoin(tokens: seq<string>, gap: string)
    requires PlainTokens(tokens) && gap != [] && AllSpace(gap)
    ensures Split(Join(tokens, gap)) == tokens
  {
    if tokens != [] {
      SplitWord(tokens[0], []);
      assert [] + tokens[0] == tokens[0];
      if |tokens| > 1 {
        SplitGap(tokens[0], gap, Join(tokens[1..], gap));
        SplitJoin(tokens[1..], gap);
      }
    }
  }

  lemma SplitPadded(lead: string, s: string, trail: string)
    requires AllSpace(lead) && AllSpace(trail)
    ensures Split(lead + s + trail) == Split(s)
  {
    if lead == [] {
      assert lead + s == s;
    } else {
      SplitGap([], lead, s);
      assert [] + lead + s == lead + s;
    }
    if trail == [] {
      assert lead + s + trail == lead + s;
    } else {
      SplitGap(lead + s, trail, []);
      assert lead + s + trail + [] == lead + s + trail;
    }
  }

  lemma UpperSpace(w: string, op: string)
    requires Upper(w) == op && op in {"AND", "OR", "NOT"}
    ensures w != [] && NoSpace(w)
  {
    forall i | 0 <= i < |w|
      ensures !IsSpace(w[i])
    {
      assert Upper(w)[i] == UpperChar(w[i]);
    }
  }

  lemma {:induction false} ClauseTokensPlain(c: Clause, first: bool, sp: Spelling)
    requires ValidSpelling(sp) && forall i :: 0 <= i < |c| ==> ValidTerm(c[i])
    ensures PlainTokens(ClauseTokens(c, first, sp))
  {
    if c != [] {
      UpperSpelling(sp);
      UpperSpace(sp.and, "AND");
      UpperSpace(sp.not, "NOT");
      ClauseTokensPlain(c[1..], false, sp);
    }
  }

  lemma {:induction false} QueryTokensPlain(q: Query, sp: Spelling)
    requires ValidSpelling(sp) && forall i :: 0 <= i < |q| ==> ValidClause(q[i])
    ensures PlainTokens(QueryTokens(q, sp))
  {
    if q != [] {
      UpperSpelling(sp);
      UpperSpace(sp.or, "OR");
      ClauseTokensPlain(q[0], true, sp);
      QueryTokensPlain(q[1..], sp);
    }
  }

  predicate NoOr(tokens: seq<string>) {
    forall i :: 0 <= i < |tokens| ==> Upper(tokens[i]) != "OR"
  }

  lemma {:induction false} ClauseTokensNoOr(c: Clause, first: bool, sp: Spelling)
    requires ValidSpelling(sp) && forall i :: 0 <= i < |c| ==> ValidTerm(c[i])
    ensures NoOr(ClauseTokens(c, first, sp))
  {
    if c != [] {
      UpperSpelling(sp);
      UpperTerm(c[0]);
      ClauseTokensNoOr(c[1..], false, sp);
    }
  }

  /** Reading OR-free tokens only extends the clause being read. */
  lemma {:induction false} ClausesOfPlain(tokens: seq<string>, current: seq<string>)
    requires NoOr(tokens)
    ensures ClausesFrom(tokens, current) == [current + tokens]
    decreases |tokens|
  {
    if tokens == [] {
      assert current + tokens == current;
    } else {
      ClausesOfPlain(tokens[1..], current + [tokens[0]]);
      assert current + [tokens[0]] + tokens[1..] == current + tokens;
    }
  }

  /** An OR ends the clause being read, whatever comes before. */
  lemma {:induction false} ClausesAcrossOr(a: seq<string>, or: string, b: seq<string>, current: seq<string>)
    requires Upper(or) == "OR"
    ensures ClausesFrom(a + [or] + b, current) == ClausesFrom(a, current) + Clauses(b)
    decreases |a|
  {
    var s := a + [or] + b;
    if a == [] {
      assert s[1..] == b;
    } else {
      assert s[1..] == a[1..] + [or] + b;
      ClausesAcrossOr(a[1..], or, b, if Upper(a[0]) == "OR" then [] else current + [a[0]]);
    }
  }

  function PrintedClauses(q: Query, sp: Spelling): seq<seq<string>> {
    if q == [] then [] else [ClauseTokens(q[0], true, sp)] + PrintedClauses(q[1..], sp)
  }

  /** Splitting the tokens of a printed query at OR gives back its clauses. */
  lemma {:induction false} ClausesOfQuery(q: Query, sp: Spelling)
    requires ValidQuery(q) && ValidSpelling(sp)
    ensures Clauses(QueryTokens(q, sp)) == PrintedClauses(q, sp)
  {
    var c := ClauseTokens(q[0], true, sp);
    ClauseTokensNoOr(q[0], true, sp);
    ClausesOfPlain(c, []);
    assert [] + c == c;
    if |q| > 1 {
      UpperSpelling(sp);
      ClausesAcrossOr(c, sp.or, QueryTokens(q[1..], sp), []);
      ClausesOfQuery(q[1..], sp);
    } else {
      assert PrintedClauses(q[1..], sp) == [];
    }
  }

  lemma WordHolds(t: Term, rest: seq<string>, name: string)
    requires ValidTerm(t)
    ensures ClauseHolds(Lower(name), [t.word] + rest, t.negated)
        <==> TermHolds(t, name) && ClauseHolds(Lower(name), rest, false)
  {
    UpperTerm(t);
    ContainsIgnoresCase(name, t.word);
    hide Upper, Lower, Occurs, Contains, ValidTerm;
    var w := [t.word] + rest;
    assert w[0] == t.word && w[1..] == rest;
  }

  /** What the operators in front of a word do. */
  lemma OperatorsHold(name: string, op: string, tokens: seq<string>, negate: bool)
    ensures Upper(op) == "AND" ==> ClauseHolds(name, [op] + tokens, negate) == ClauseHolds(name, tokens, negate)
    ensures Upper(op) == "NOT" ==> ClauseHolds(name, [op] + tokens, negate) == ClauseHolds(name, tokens, true)
  {
    var all := [op] + tokens;
    assert all[0] == op && all[1..] == tokens;
    assert "AND"[0] != "NOT"[0];
    hide Upper, Lower, Contains;
  }

  lemma TermTokensAre(t: Term, first: bool, sp: Spelling, rest: seq<string>)
    ensures var word := [t.word] + rest;
            var negated := if t.negated then [sp.not] + word else word;
            TermTokens(t, first, sp) + rest == if !first && t.glue == Conjoined then [sp.and] + negated else negated
  {
  }

  lemma TermTokensHold(t: Term, first: bool, sp: Spelling, rest: seq<string>, name: string)
    requires ValidSpelling(sp) && ValidTerm(t)
    ensures ClauseHolds(Lower(name), TermTokens(t, first, sp) + rest, false)
        <==> TermHolds(t, name) && ClauseHolds(Lower(name), rest, false)
  {
    hide *;
    var word := [t.word] + rest;
    var negated := if t.negated then [sp.not] + word else word;
    UpperSpelling(sp);
    TermTokensAre(t, first, sp, rest);
    OperatorsHold(Lower(name), sp.and, negated, false);
    OperatorsHold(Lower(name), sp.not, word, false);
    WordHolds(t, rest, name);
  }

  /** The evaluator reads a printed clause as the conjunction of its words. */
  lemma {:induction false} PrintedClauseHolds(c: Clause, first: bool, sp: Spelling, name: string)
    requires ValidSpelling(sp) && forall i :: 0 <= i < |c| ==> ValidTerm(c[i])
    ensures ClauseHolds(Lower(name), ClauseTokens(c, first, sp), false) <==> ClauseDenotes(c, name)
  {
    if c != [] {
      TermTokensHold(c[0], first, sp, ClauseTokens(c[1..], false, sp), name);
      PrintedClauseHolds(c[1..], false, sp, name);
      assert ClauseDenotes(c, name) <==> TermHolds(c[0], name) && ClauseDenotes(c[1..], name) by {
        assert c == [c[0]] + c[1..];
      }
    }
  }

  lemma AnyClauseCons(name: string, first: seq<string>, rest: seq<seq<string>>)
    ensures AnyClause(name, [first] + rest) <==> ClauseHolds(name, first, false) || AnyClause(name, rest)
  {
    var all := [first] + rest;
    assert all[0] == first;
    assert forall i :: 0 <= i < |rest| ==> all[i + 1] == rest[i];
  }

  lemma DenotesCons(q: Query, name: string)
    requires q != []
    ensures Denotes(q, name) <==> ClauseDenotes(q[0], name) || Denotes(q[1..], name)
  {
    assert q == [q[0]] + q[1..];
    assert forall i :: 0 <= i < |q[1..]| ==> q[1..][i] == q[i + 1];
  }

  lemma {:induction false} PrintedClausesHold(q: Query, sp: Spelling, name: string)
    requires ValidSpelling(sp) && forall i :: 0 <= i < |q| ==> ValidClause(q[i])
    ensures AnyClause(Lower(name), PrintedClauses(q, sp)) <==> Denotes(q, name)
  {
    if q != [] {
      PrintedClauseHolds(q[0], true, sp, name);
      PrintedClausesHold(q[1..], sp, name);
      AnyClauseCons(Lower(name), ClauseTokens(q[0], true, sp), PrintedClauses(q[1..], sp));
      DenotesCons(q, name);
    }
  }

  /** Filtering with a printed query keeps exactly the results whose name the query denotes: reading
      undoes printing, AND binds tighter than OR, and case does not matter. */
  lemma PrintedQueryKeeps(q: Query, sp: Spelling, results: seq<Found>)
    requires ValidQuery(q) && ValidSpelling(sp)
    ensures ApplyBoolean(results, Print(q, sp))
         == Filter(results, (r: Found) => Denotes(q, if r.name != "" then r.name else r.displayName))
  {
    SplitPadded(sp.lead, Join(QueryTokens(q, sp), sp.gap), sp.trail);
    QueryTokensPlain(q, sp);
    SplitJoin(QueryTokens(q, sp), sp.gap);
    ClausesOfQuery(q, sp);
    forall r
      ensures Matches(Print(q, sp), r) <==> Denotes(q, if r.name != "" then r.name else r.displayName)
    {
      PrintedClausesHold(q, sp, if r.name != "" then r.name else r.displayName);
    }
    ApplyBooleanKeeps(results, Print(q, sp));
    FilterSame(results, r => Matches(Print(q, sp), r),
               (r: Found) => Denotes(q, if r.name != "" then r.name else r.displayName));
  }

  // ----- laws for arbitrary expressions -----

  lemma AnyClauseConcat(name: string, a: seq<seq<string>>, b: seq<seq<string>>)
    ensures AnyClause(name, a + b) <==> AnyClause(name, a) || AnyClause(name, b)
  {
    assert forall i :: 0 <= i < |a| ==> (a + b)[i] == a[i];
    assert forall i :: 0 <= i < |b| ==> (a + b)[|a| + i] == b[i];
    if i :| 0 <= i < |a + b| && ClauseHolds(name, (a + b)[i], false) {
      if i >= |a| {
        assert b[i - |a|] == (a + b)[i];
      }
    }
  }

  lemma SplitOperator(e1: string, op: string, e2: string)
    requires op != [] && NoSpace(op)
    ensures Split(e1 + (" " + op + " ") + e2) == Split(e1) + [op] + Split(e2)
  {
    var tail := op + " " + e2;
    SplitOne(op);
    hide Split, NoSpace;
    SplitGap(op, " ", e2);
    SplitGap(e1, " ", tail);
    assert e1 + " " + tail == e1 + (" " + op + " ") + e2;
    assert Split(e1) + ([op] + Split(e2)) == Split(e1) + [op] + Split(e2);
  }

  lemma SplitOne(op: string)
    requires op != [] && NoSpace(op)
    ensures Split(op) == [op]
  {
    SplitWord(op, []);
    assert [] + op == op;
  }

  /** For all expressions, "e1 OR e2" keeps the results that either keeps, in order. */
  lemma OrIsUnion(e1: string, e2: string, results: seq<Found>)
    ensures Keep(results, e1 + " OR " + e2) == Filter(results, r => Matches(e1, r) || Matches(e2, r))
  {
    var e := e1 + " OR " + e2;
    SplitOperator(e1, "OR", e2);
    assert e == e1 + (" " + "OR" + " ") + e2;
    ClausesAcrossOr(Split(e1), "OR", Split(e2), []);
    forall r
      ensures Matches(e, r) == (Matches(e1, r) || Matches(e2, r))
    {
      AnyClauseConcat(ReleaseName(r), Clauses(Split(e1)), Clauses(Split(e2)));
    }
    FilterSame(results, r => Matches(e, r), r => Matches(e1, r) || Matches(e2, r));
  }

  /** A NOT is still waiting for its word when the tokens end. */
  predicate Dangling(tokens: seq<string>, negate: bool) {
    if tokens == [] then negate
    else if Upper(tokens[0]) == "AND" then Dangling(tokens[1..], negate)
    else Dangling(tokens[1..], Upper(tokens[0]) == "NOT")
  }

  /** The first token that is not AND is a word, so a waiting NOT would fall on it. */
  predicate StartsWithWord(tokens: seq<string>) {
    if tokens == [] then false
    else if Upper(tokens[0]) == "AND" then StartsWithWord(tokens[1..])
    else Upper(tokens[0]) != "NOT"
  }

  lemma {:induction false} ClauseConcat(name: string, a: seq<string>, b: seq<string>, negate: bool)
    ensures ClauseHolds(name, a + b, negate)
        <==> ClauseHolds(name, a, negate) && ClauseHolds(name, b, Dangling(a, negate))
    decreases |a|
  {
    if a == [] {
      assert a + b == b;
    } else {
      assert (a + b)[1..] == a[1..] + b;
      if Upper(a[0]) == "AND" {
        ClauseConcat(name, a[1..], b, negate);
      } else {
        ClauseConcat(name, a[1..], b, Upper(a[0]) == "NOT");
      }
    }
  }

  lemma {:induction false} WaitingNot(name: string, tokens: seq<string>)
    ensures !StartsWithWord(tokens) ==> ClauseHolds(name, tokens, true) == ClauseHolds(name, tokens, false)
    ensures StartsWithWord(tokens) ==> !(ClauseHolds(name, tokens, true) && ClauseHolds(name, tokens, false))
  {
    if tokens != [] && Upper(tokens[0]) == "AND" {
      WaitingNot(name, tokens[1..]);
    }
  }

  predicate OrFree(expr: string) {
    NoOr(Split(expr))
  }

  lemma OrFreeMatches(expr: string, r: Found)
    requires OrFree(expr)
    ensures Matches(expr, r) <==> ClauseHolds(ReleaseName(r), Split(expr), false)
  {
    ClausesOfPlain(Split(expr), []);
    assert [] + Split(expr) == Split(expr);
    AnyClauseCons(ReleaseName(r), Split(expr), []);
    assert [Split(expr)] + [] == [Split(expr)];
  }

  /** When the first half ends in NOT and the second begins with a word, the NOT takes that word. */
  predicate NotLeaks(e1: string, e2: string) {
    Dangling(Split(e1), false) && StartsWithWord(Split(e2))
  }

  lemma AndTokens(e1: string, e2: string, r: Found)
    requires OrFree(e1) && OrFree(e2)
    ensures Matches(e1 + " AND " + e2, r)
       <==> Matches(e1, r) && ClauseHolds(ReleaseName(r), Split(e2), Dangling(Split(e1), false))
  {
    var e, name, a, b := e1 + " AND " + e2, ReleaseName(r), Split(e1), Split(e2);
    AndSplits(e1, e2);
    OrFreeMatches(e1, r);
    OrFreeMatches(e, r);
    ClauseConcat(name, a, ["AND"] + b, false);
    assert (["AND"] + b)[0] == "AND" && (["AND"] + b)[1..] == b && Upper("AND") == "AND";
    hide Matches, Split, OrFree, ReleaseName, Dangling;
  }

  lemma AndSplits(e1: string, e2: string)
    requires OrFree(e1) && OrFree(e2)
    ensures Split(e1 + " AND " + e2) == Split(e1) + (["AND"] + Split(e2)) && OrFree(e1 + " AND " + e2)
  {
    assert NoSpace("AND") && Upper("AND") == "AND";
    SplitOperator(e1, "AND", e2);
    hide Split;
    assert e1 + " AND " + e2 == e1 + (" " + "AND" + " ") + e2;
    assert Split(e1) + ["AND"] + Split(e2) == Split(e1) + (["AND"] + Split(e2));
  }

  lemma AndMatches(e1: string, e2: string, r: Found)
    requires OrFree(e1) && OrFree(e2)
    ensures !NotLeaks(e1, e2) ==> (Matches(e1 + " AND " + e2, r) <==> Matches(e1, r) && Matches(e2, r))
    ensures NotLeaks(e1, e2) ==> !(Matches(e1 + " AND " + e2, r) && Matches(e2, r))
  {
    AndTokens(e1, e2, r);
    OrFreeMatches(e2, r);
    WaitingNot(ReleaseName(r), Split(e2));
    hide Matches, Split, ClauseHolds, ReleaseName, StartsWithWord, Dangling;
  }

  /** For OR-free expressions "e1 AND e2" keeps the intersection, unless a dangling NOT of e1
      falls on the first word of e2. */
  lemma AndIsIntersection(e1: string, e2: string, results: seq<Found>)
    requires OrFree(e1) && OrFree(e2) && !NotLeaks(e1, e2)
    ensures Keep(results, e1 + " AND " + e2) == Filter(results, r => Matches(e1, r) && Matches(e2, r))
  {
    forall r
      ensures Matches(e1 + " AND " + e2, r) == (Matches(e1, r) && Matches(e2, r))
    {
      AndMatches(e1, e2, r);
    }
    FilterSame(results, r => Matches(e1 + " AND " + e2, r), r => Matches(e1, r) && Matches(e2, r));
  }

  /** In that case it keeps nothing that e2 keeps, so it is the intersection exactly when
      neither keeps anything. */
  lemma LeakedNotExcludes(e1: string, e2: string, results: seq<Found>)
    requires OrFree(e1) && OrFree(e2) && NotLeaks(e1, e2)
    ensures Filter(results, r => Matches(e1 + " AND " + e2, r) && Matches(e2, r)) == []
    ensures Keep(results, e1 + " AND " + e2) == Filter(results, r => Matches(e1, r) && Matches(e2, r))
       <==> Keep(results, e1 + " AND " + e2) == [] && Filter(results, r => Matches(e1, r) && Matches(e2, r)) == []
  {
    var p, q := r => Matches(e1 + " AND " + e2, r), r => Matches(e1, r) && Matches(e2, r);
    forall r
      ensures !(p(r) && Matches(e2, r)) && !(p(r) && q(r))
    {
      AndMatches(e1, e2, r);
    }
    NonePass(results, r => Matches(e1 + " AND " + e2, r) && Matches(e2, r));
    ExclusiveFilters(results, p, q);
  }

  /** The tokens behind the first word, which is what a waiting NOT of the first half falls on. */
  function BehindWord(tokens: seq<string>): seq<string> {
    if tokens == [] then []
    else if Upper(tokens[0]) == "AND" then BehindWord(tokens[1..])
    else tokens[1..]
  }

  lemma {:induction false} NegatedWord(name: string, tokens: seq<string>)
    requires StartsWithWord(tokens)
    ensures ClauseHolds(name, tokens, true) != ClauseHolds(name, tokens, false)
       <==> ClauseHolds(name, BehindWord(tokens), false)
  {
    if Upper(tokens[0]) == "AND" {
      NegatedWord(name, tokens[1..]);
    }
  }

  /** What the leak turns on: the first half matches, and so does all of the second behind its first word. */
  predicate Leaks(e1: string, e2: string, r: Found) {
    NotLeaks(e1, e2) && Matches(e1, r) && ClauseHolds(ReleaseName(r), BehindWord(Split(e2)), false)
  }

  lemma AndOfOne(e1: string, e2: string, r: Found)
    requires OrFree(e1) && OrFree(e2)
    ensures (Matches(e1 + " AND " + e2, r) <==> Matches(e1, r) && Matches(e2, r)) <==> !Leaks(e1, e2, r)
  {
    AndTokens(e1, e2, r);
    OrFreeMatches(e2, r);
    WaitingNot(ReleaseName(r), Split(e2));
    if StartsWithWord(Split(e2)) {
      NegatedWord(ReleaseName(r), Split(e2));
    }
    hide Matches, Split, ClauseHolds, ReleaseName, StartsWithWord, Dangling, BehindWord;
  }

  lemma {:induction false} FilterHas(results: seq<Found>, p: Found -> bool, r: Found)
    ensures r in Filter(results, p) <==> r in results && p(r)
    decreases |results|
  {
    if results != [] {
      FilterHas(results[1..], p, r);
      assert results == [results[0]] + results[1..];
    }
  }

  lemma {:induction false} FilterAgrees(results: seq<Found>, p: Found -> bool, q: Found -> bool)
    requires forall r :: r in results ==> p(r) == q(r)
    ensures Filter(results, p) == Filter(results, q)
    decreases |results|
  {
    if results != [] {
      assert results[0] in results && forall r :: r in results[1..] ==> r in results;
      FilterAgrees(results[1..], p, q);
    }
  }

  lemma FiltersEqual(results: seq<Found>, p: Found -> bool, q: Found -> bool)
    ensures Filter(results, p) == Filter(results, q) <==> forall r :: r in results ==> p(r) == q(r)
  {
    if forall r :: r in results ==> p(r) == q(r) {
      FilterAgrees(results, p, q);
    } else {
      var r :| r in results && p(r) != q(r);
      FilterHas(results, p, r);
      FilterHas(results, q, r);
    }
  }

  /** For OR-free expressions and any list: "e1 AND e2" keeps the intersection exactly if no result of the list
      matches e1 and all of e2 behind the word that a dangling NOT of e1 falls on. */
  lemma AndExactly(e1: string, e2: string, results: seq<Found>)
    requires OrFree(e1) && OrFree(e2)
    ensures Keep(results, e1 + " AND " + e2) == Filter(results, r => Matches(e1, r) && Matches(e2, r))
       <==> forall r :: r in results ==> !Leaks(e1, e2, r)
  {
    forall r
      ensures (Matches(e1 + " AND " + e2, r) <==> Matches(e1, r) && Matches(e2, r)) <==> !Leaks(e1, e2, r)
    {
      AndOfOne(e1, e2, r);
    }
    hide Leaks, OrFree, Matches;
    FiltersEqual(results, r => Matches(e1 + " AND " + e2, r), r => Matches(e1, r) && Matches(e2, r));
  }

  /** The tokens of both halves and of the whole, in the name "a". */
  lemma LeakClauses()
    ensures ClauseHolds("a", ["a", "NOT"], false) && !ClauseHolds("a", ["b"], false)
    ensures ClauseHolds("a", ["AND"] + ["b"], true) && Dangling(["a", "NOT"], false) && StartsWithWord(["b"])
    ensures NoOr(["a", "NOT"]) && NoOr(["b"]) && NoOr(["a", "NOT"] + (["AND"] + ["b"]))
  {
    assert Upper("a") == "A" && Upper("b") == "B" && Upper("NOT") == "NOT" && Upper("AND") == "AND";
    assert Lower("a") == "a" && Lower("b") == "b";
    assert "a"[1..] == [] && Contains("a", "a");
    assert "b"[0] != "a"[0] && !("b" <= "a") && !Contains([], "b") && !Contains("a", "b");
    assert ["a", "NOT"][1..] == ["NOT"] && ["NOT"][1..] == [] && ["b"][1..] == [];
    assert (["AND"] + ["b"])[1..] == ["b"];
    assert ClauseHolds("a", ["b"], true) && ClauseHolds("a", ["NOT"], false);
  }

  /** An instance: "a NOT" joined with "b" keeps a result named "a", which is not in the intersection. */
  lemma NotLeaksIntoB()
    ensures NotLeaks("a NOT", "b")
    ensures var r := Found("a", "a");
            && Keep([r], "a NOT" + " AND " + "b") == [r]
            && Filter([r], x => Matches("a NOT", x) && Matches("b", x)) == []
  {
    var r := Found("a", "a");
    var whole := "a NOT" + " AND " + "b";
    LeakTokens();
    LeakClauses();
    LeakMatches(r, whole);
    FilterOne(r, x => Matches(whole, x));
    FilterOne(r, x => Matches("a NOT", x) && Matches("b", x));
  }

  lemma FilterOne(r: Found, p: Found -> bool)
    ensures Filter([r], p) == if p(r) then [r] else []
  {
    assert [r][1..] == [];
  }

  lemma LeakMatches(r: Found, whole: string)
    requires r == Found("a", "a") && whole == "a NOT" + " AND " + "b"
    ensures Matches(whole, r) && !Matches("b", r)
  {
    LeakTokens();
    LeakClauses();
    assert Lower("a") == "a" && ReleaseName(r) == "a";
    hide *;
    LeakWhole();
    ClauseConcat("a", ["a", "NOT"], ["AND"] + ["b"], false);
    OrFreeFrom("b", ["b"], r);
    OrFreeFrom(whole, ["a", "NOT"] + (["AND"] + ["b"]), r);
  }

  lemma LeakWhole()
    ensures Split("a NOT" + " AND " + "b") == ["a", "NOT"] + (["AND"] + ["b"])
  {
    LeakTokens();
    LeakClauses();
    AndSplits("a NOT", "b");
    hide Split;
  }

  lemma OrFreeFrom(expr: string, tokens: seq<string>, r: Found)
    requires Split(expr) == tokens && NoOr(tokens)
    ensures Matches(expr, r) <==> ClauseHolds(ReleaseName(r), tokens, false)
  {
    OrFreeMatches(expr, r);
  }

  lemma LeakTokens()
    ensures Split("a NOT") == ["a", "NOT"] && Split("b") == ["b"]
  {
    assert ["a", "NOT"][1..] == ["NOT"] && Join(["NOT"], " ") == "NOT";
    assert Join(["a", "NOT"], " ") == "a NOT" && Join(["b"], " ") == "b";
    SplitJoin(["a", "NOT"], " ");
    SplitJoin(["b"], " ");
  }

  lemma ExclusiveFilters(results: seq<Found>, p: Found -> bool, q: Found -> bool)
    requires forall r :: !(p(r) && q(r))
    ensures Filter(results, p) == Filter(results, q) ==> Filter(results, p) == []
  {
    FilterPasses(results, p);
    FilterPasses(results, q);
    if Filter(results, p) != [] {
      assert p(Filter(results, p)[0]);
      assert Filter(results, q) != [] ==> q(Filter(results, q)[0]);
    }
  }

  lemma {:induction false} NonePass(results: seq<Found>, p: Found -> bool)
    requires forall r :: !p(r)
    ensures Filter(results, p) == []
    decreases |results|
  {
    if results != [] {
      NonePass(results[1..], p);
    }
  }

  lemma {:induction false} FilterPasses(results: seq<Found>, p: Found -> bool)
    ensures forall i :: 0 <= i < |Filter(results, p)| ==> p(Filter(results, p)[i])
    decreases |results|
  {
    if results != [] {
      FilterPasses(results[1..], p);
    }
  }

  /** `part` is `whole` with some elements left out. */
  predicate Subsequence(part: seq<Found>, whole: seq<Found>) {
    part == []
    || (whole != [] && ((part[0] == whole[0] && Subsequence(part[1..], whole[1..])) || Subsequence(part, whole[1..])))
  }

  lemma {:induction false} FilterShrinks(results: seq<Found>, p: Found -> bool)
    ensures Subsequence(Filter(results, p), results)
    ensures Filter(Filter(results, p), p) == Filter(results, p)
    decreases |results|
  {
    if results != [] {
      FilterShrinks(results[1..], p);
      var rest := Filter(results[1..], p);
      if p(results[0]) {
        assert Filter(results, p) == [results[0]] + rest;
        assert ([results[0]] + rest)[1..] == rest;
      } else {
        assert Filter(results, p) == rest;
      }
    }
  }

  /** Every expression only leaves results out, and filtering twice is filtering once. */
  lemma KeepIsIdempotent(results: seq<Found>, expr: string)
    ensures Subsequence(Keep(results, expr), results)
    ensures Keep(Keep(results, expr), expr) == Keep(results, expr)
  {
    FilterShrinks(results, r => Matches(expr, r));
  }

  lemma LowerWord(w: string)
    requires NoSpace(w)
    ensures NoSpace(Lower(w))
  {
    forall i | 0 <= i < |w|
      ensures !IsSpace(Lower(w)[i])
    {
      assert Lower(w)[i] == LowerChar(w[i]);
    }
  }

  lemma SingleWordMatches(word: string, r: Found)
    requires ValidTerm(Term(Juxtaposed, false, word))
    ensures Matches(word, r) == Contains(ReleaseName(r), Lower(word))
  {
    UpperTerm(Term(Juxtaposed, false, word));
    SplitWord(word, []);
    assert [] + word == word && [word][1..] == [];
    OrFreeMatches(word, r);
    hide Matches, Split, ReleaseName, Contains, Lower;
  }

  /** A single word that is no operator filters exactly as the substring filter does. */
  lemma SingleWordIsExact(word: string, results: seq<Found>)
    requires ValidTerm(Term(Juxtaposed, false, word))
    ensures ApplyBoolean(results, word) == ApplyExact(results, word)
  {
    LowerWord(word);
    StripWord(Lower(word));
    ApplyBooleanKeeps(results, word);
    var q := Lower(word);
    forall r
      ensures Matches(word, r) == Contains(ReleaseName(r), q)
    {
      SingleWordMatches(word, r);
    }
    hide Matches, Split, ReleaseName, Contains, Strip, Filter;
    FilterSame(results, r => Matches(word, r), r => Contains(ReleaseName(r), q));
  }
}
