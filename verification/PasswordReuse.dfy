/** Which passwords can come back, over whole runs of self-service changes and admin resets. */
module PasswordReuse {
  import opened Results
  import opened Passwords

  datatype Change = Change(user: UserId, bySelf: bool, before: Option<string>, after: string)

  /** The changes that a run makes, in order. */
  function Changes(p: Policy, s: Store, rs: seq<Request>): seq<Change>
    decreases |rs|
  {
    if rs == [] then []
    else
      var r := rs[0];
      (if Granted(p, s, r) then [Change(r.user, r.SelfChange?, s.users[r.user].password, r.chosen)] else [])
      + Changes(p, Handle(p, s, r), rs[1..])
  }

  /** The passwords that the user gave up by self-service, in order. */
  function Retired(cs: seq<Change>, user: UserId): seq<string> {
    if cs == [] then []
    else
      (if cs[0].user == user && cs[0].bySelf && cs[0].before.Some? then [cs[0].before.value] else [])
      + Retired(cs[1..], user)
  }

  lemma HistoryGrows(history: seq<Record>, r: Record, user: UserId)
    ensures HistoryOf(history + [r], user) == HistoryOf(history, user) + if r.user == user then [r.password] else []
  {
    assert (history + [r])[..|history|] == history;
  }

  lemma HandleRetires(p: Policy, s: Store, r: Request, user: UserId)
    ensures HistoryOf(Handle(p, s, r).history, user)
         == HistoryOf(s.history, user) + if r.SelfChange? && r.user == user && Granted(p, s, r) then [r.current] else []
  {
    if r.SelfChange? {
      HistoryGrows(s.history, Record(r.user, r.current), user);
    }
  }

  lemma ChangesStep(p: Policy, s: Store, rs: seq<Request>)
    requires rs != []
    ensures var rest := Changes(p, Handle(p, s, rs[0]), rs[1..]);
            if Granted(p, s, rs[0])
            then Changes(p, s, rs) != [] && Changes(p, s, rs)[1..] == rest
                 && Changes(p, s, rs)[0]
                 == Change(rs[0].user, rs[0].SelfChange?, s.users[rs[0].user].password, rs[0].chosen)
            else Changes(p, s, rs) == rest
  {
  }

  lemma RetiredFirst(p: Policy, s: Store, rs: seq<Request>, user: UserId)
    requires rs != []
    ensures Retired(Changes(p, s, rs), user)
         == (if rs[0].SelfChange? && rs[0].user == user && Granted(p, s, rs[0]) then [rs[0].current] else [])
            + Retired(Changes(p, Handle(p, s, rs[0]), rs[1..]), user)
  {
    ChangesStep(p, s, rs);
    var later := Retired(Changes(p, Handle(p, s, rs[0]), rs[1..]), user);
    assert Granted(p, s, rs[0]) && rs[0].SelfChange? ==> s.users[rs[0].user].password == Some(rs[0].current);
    hide Changes, Handle, Granted, HistoryOf, Acceptable, Fresh;
    assert [] + later == later;
  }

  /** The history table holds, for every user, what the user gave up by self-service and nothing else:
      resets leave no trace in it, and the users do not mix. */
  lemma {:induction false} HistoryIsRetired(p: Policy, s: Store, rs: seq<Request>, user: UserId)
    ensures HistoryOf(HandleAll(p, s, rs).history, user)
         == HistoryOf(s.history, user) + Retired(Changes(p, s, rs), user)
    decreases |rs|
  {
    if rs != [] {
      var r := rs[0];
      var next := Handle(p, s, r);
      assert HandleAll(p, s, rs) == HandleAll(p, next, rs[1..]);
      HandleRetires(p, s, r, user);
      RetiredFirst(p, s, rs, user);
      hide *;
      HistoryIsRetired(p, next, rs[1..], user);
      var here := if r.SelfChange? && r.user == user && Granted(p, s, r) then [r.current] else [];
      var rest := Retired(Changes(p, next, rs[1..]), user);
      assert (HistoryOf(s.history, user) + here) + rest == HistoryOf(s.history, user) + (here + rest);
    } else {
      assert HistoryOf(s.history, user) + [] == HistoryOf(s.history, user);
    }
  }

  /** In any run of changes and resets of any users, a self-service change never installs one of the
      last passwords, as many as the policy counts, that its user had given up by self-service. */
  lemma {:induction false} NoRecentPassword(p: Policy, s: Store, rs: seq<Request>, i: nat)
    requires i < |Changes(p, s, rs)| && Changes(p, s, rs)[i].bySelf
    ensures var c := Changes(p, s, rs)[i];
            Fresh(p, HistoryOf(s.history, c.user) + Retired(Changes(p, s, rs)[..i], c.user), c.after)
    decreases |rs|
  {
    var r := rs[0];
    var next := Handle(p, s, r);
    var cs, later := Changes(p, s, rs), Changes(p, next, rs[1..]);
    ChangesStep(p, s, rs);
    assert !Granted(p, s, r) ==> Handle(p, s, r) == s;
    hide *;
    if !Granted(p, s, r) {
      NoRecentPassword(p, next, rs[1..], i);
    } else if i > 0 {
      NoRecentPassword(p, next, rs[1..], i - 1);
      RetiredStep(p, s, r, cs, i);
    } else {
      GrantedIsFresh(p, s, r);
      assert cs[..0] == [];
      assert HistoryOf(s.history, r.user) + [] == HistoryOf(s.history, r.user);
    }
  }

  lemma GrantedIsFresh(p: Policy, s: Store, r: Request)
    requires Granted(p, s, r) && r.SelfChange?
    ensures Fresh(p, HistoryOf(s.history, r.user), r.chosen)
  {
  }

  lemma RetiredStep(p: Policy, s: Store, r: Request, cs: seq<Change>, i: nat)
    requires Granted(p, s, r) && 0 < i < |cs|
    requires cs[0] == Change(r.user, r.SelfChange?, s.users[r.user].password, r.chosen)
    ensures HistoryOf(Handle(p, s, r).history, cs[i].user) + Retired(cs[1..][..i - 1], cs[i].user)
         == HistoryOf(s.history, cs[i].user) + Retired(cs[..i], cs[i].user)
  {
    var user := cs[i].user;
    var h := HistoryOf(s.history, user);
    HandleRetires(p, s, r, user);
    hide Fresh, Acceptable, HistoryOf;
    var here := if r.SelfChange? && r.user == user then [r.current] else [];
    assert cs[..i][1..] == cs[1..][..i - 1];
    assert Retired(cs[..i], user) == here + Retired(cs[1..][..i - 1], user);
    assert (h + here) + Retired(cs[1..][..i - 1], user) == h + (here + Retired(cs[1..][..i - 1], user));
  }

  // ----- runs without resets -----

  /** The passwords that a user has, one after the other. */
  function Sequence(p: Policy, s: Store, rs: seq<Request>, user: UserId): (ps: seq<string>)
    requires user in s.users && s.users[user].password.Some?
    ensures ps != [] && ps[0] == s.users[user].password.value
    decreases |rs|
  {
    if rs == [] then [s.users[user].password.value]
    else
      (if rs[0].user == user && Granted(p, s, rs[0]) then [s.users[user].password.value] else [])
      + Sequence(p, Handle(p, s, rs[0]), rs[1..], user)
  }

  /** No two passwords from place `from` on are equal to one that stands two to n + 1 places before. */
  ghost predicate Spaced(ps: seq<string>, from: nat, n: int) {
    forall a, b :: from <= a < |ps| && 0 <= b && 2 <= a - b <= n + 1 ==> ps[a] != ps[b]
  }

  lemma SpacedAtStart(ps: seq<string>, n: int)
    ensures Spaced(ps, 0, n) <==> Spaced(ps, 1, n)
  {
  }

  lemma FreshIsSpaced(p: Policy, h: seq<string>, current: string, chosen: string, rest: seq<string>)
    requires p.historyCount > 0
    ensures Spaced(h + [current, chosen] + rest, |h| + 1, p.historyCount)
        <==> Fresh(p, h, chosen) && Spaced(h + [current, chosen] + rest, |h| + 2, p.historyCount)
  {
    var n := p.historyCount;
    var full := h + [current, chosen] + rest;
    var last := Last(h, n);
    assert full[|h| + 1] == chosen;
    if Fresh(p, h, chosen) {
      forall b | 0 <= b && 2 <= |h| + 1 - b <= n + 1
        ensures full[b] != chosen
      {
        assert full[b] == h[b] == last[b - (|h| - |last|)];
      }
    } else {
      var k :| 0 <= k < |last| && last[k] == chosen;
      var b := k + (|h| - |last|);
      assert full[b] == h[b] == chosen && 2 <= |h| + 1 - b <= n + 1;
    }
  }

  ghost predicate PlacesApart(p: Policy, h: seq<string>, ps: seq<string>) {
    p.historyCount > 0 ==> Spaced(h + ps, |h| + 1, p.historyCount)
  }

  lemma PlacesStep(p: Policy, h: seq<string>, ps: seq<string>)
    requires |ps| >= 2
    ensures PlacesApart(p, h, ps) <==> Fresh(p, h, ps[1]) && PlacesApart(p, h + [ps[0]], ps[1..])
  {
    hide Spaced;
    assert h + ps == h + [ps[0], ps[1]] + ps[2..] == (h + [ps[0]]) + ps[1..];
    if p.historyCount > 0 {
      hide Fresh;
      FreshIsSpaced(p, h, ps[0], ps[1], ps[2..]);
    }
  }

  lemma SequenceStep(p: Policy, s: Store, rs: seq<Request>, user: UserId)
    requires rs != [] && user in s.users && s.users[user].password.Some?
    requires rs[0].user == user ==> rs[0].SelfChange?
    ensures var r, h, next := rs[0], HistoryOf(s.history, user), Handle(p, s, rs[0]);
            var later := Sequence(p, next, rs[1..], user);
            if r.user == user && Granted(p, s, r) then
              && Sequence(p, s, rs, user) == [r.current] + later && later[0] == r.chosen
              && HistoryOf(next.history, user) == h + [r.current] && Fresh(p, h, r.chosen)
            else Sequence(p, s, rs, user) == later && HistoryOf(next.history, user) == h
  {
    HandleRetires(p, s, rs[0], user);
    hide Acceptable, Fresh, HistoryOf;
    assert HistoryOf(s.history, user) + [] == HistoryOf(s.history, user);
  }

  lemma {:induction false} SpacedFrom(p: Policy, s: Store, rs: seq<Request>, user: UserId)
    requires user in s.users && s.users[user].password.Some?
    requires forall i :: 0 <= i < |rs| && rs[i].user == user ==> rs[i].SelfChange?
    ensures PlacesApart(p, HistoryOf(s.history, user), Sequence(p, s, rs, user))
    decreases |rs|
  {
    if rs != [] {
      var r := rs[0];
      var h, ps := HistoryOf(s.history, user), Sequence(p, s, rs, user);
      var later := Sequence(p, Handle(p, s, r), rs[1..], user);
      SequenceStep(p, s, rs, user);
      SpacedFrom(p, Handle(p, s, r), rs[1..], user);
      hide *;
      if r.user == user && Granted(p, s, r) {
        assert ps[0] == r.current && ps[1..] == later && ps[1] == r.chosen;
        PlacesStep(p, h, ps);
      }
    }
  }

  /** In a run that never resets the user, the n passwords before the current one do not come back:
      places from 2 to n + 1 apart hold different passwords. */
  lemma PasswordsAreSpaced(p: Policy, s: Store, rs: seq<Request>, user: UserId)
    requires user in s.users && s.users[user].password.Some? && p.historyCount > 0
    requires HistoryOf(s.history, user) == []
    requires forall i :: 0 <= i < |rs| && rs[i].user == user ==> rs[i].SelfChange?
    ensures Spaced(Sequence(p, s, rs, user), 0, p.historyCount)
  {
    hide HistoryOf, Sequence, Spaced;
    SpacedFrom(p, s, rs, user);
    assert HistoryOf(s.history, user) + Sequence(p, s, rs, user) == Sequence(p, s, rs, user);
    SpacedAtStart(Sequence(p, s, rs, user), p.historyCount);
  }

  /** The requests of a user who goes through the given passwords. */
  function Going(user: UserId, ps: seq<string>): seq<Request> {
    if |ps| < 2 then [] else [SelfChange(user, ps[0], ps[1], ps[1])] + Going(user, ps[1..])
  }

  /** Every request of the run is granted when its turn comes. */
  predicate AllGranted(p: Policy, s: Store, rs: seq<Request>)
    decreases |rs|
  {
    rs == [] || (Granted(p, s, rs[0]) && AllGranted(p, Handle(p, s, rs[0]), rs[1..]))
  }

  predicate AllAcceptable(p: Policy, ps: seq<string>) {
    forall i :: 1 <= i < |ps| ==> Acceptable(p, ps[i])
  }

  /** The first of the changes, and where it leads. */
  lemma GoingStep(p: Policy, s: Store, user: UserId, ps: seq<string>)
    requires |ps| >= 2 && user in s.users && s.users[user].password == Some(ps[0])
    ensures var h, next := HistoryOf(s.history, user), Handle(p, s, SelfChange(user, ps[0], ps[1], ps[1]));
            var granted := Acceptable(p, ps[1]) && Fresh(p, h, ps[1]);
            && (AllGranted(p, s, Going(user, ps)) <==> granted && AllGranted(p, next, Going(user, ps[1..])))
            && (granted ==> user in next.users && next.users[user].password == Some(ps[1])
                            && HistoryOf(next.history, user) == h + [ps[0]])
  {
    var r := SelfChange(user, ps[0], ps[1], ps[1]);
    assert Going(user, ps)[0] == r && Going(user, ps)[1..] == Going(user, ps[1..]);
    HandleRetires(p, s, r, user);
    hide Acceptable, Fresh, HistoryOf;
    assert Granted(p, s, r) <==> Acceptable(p, ps[1]) && Fresh(p, HistoryOf(s.history, user), ps[1]);
  }

  lemma {:induction false} GoingFrom(p: Policy, s: Store, user: UserId, ps: seq<string>)
    requires ps != [] && user in s.users && s.users[user].password == Some(ps[0])
    ensures AllGranted(p, s, Going(user, ps))
        <==> AllAcceptable(p, ps) && PlacesApart(p, HistoryOf(s.history, user), ps)
    decreases |ps|
  {
    if |ps| >= 2 {
      hide *;
      var next := Handle(p, s, SelfChange(user, ps[0], ps[1], ps[1]));
      GoingStep(p, s, user, ps);
      AcceptableStep(p, ps);
      PlacesStep(p, HistoryOf(s.history, user), ps);
      if Acceptable(p, ps[1]) && Fresh(p, HistoryOf(s.history, user), ps[1]) {
        GoingFrom(p, next, user, ps[1..]);
      }
    }
  }

  lemma AcceptableStep(p: Policy, ps: seq<string>)
    requires |ps| >= 2
    ensures AllAcceptable(p, ps) <==> Acceptable(p, ps[1]) && AllAcceptable(p, ps[1..])
  {
    hide Acceptable;
    assert forall i :: 2 <= i < |ps| ==> ps[i] == ps[1..][i - 1];
  }

  /** Exactly which passwords a user can go through by self-service: each must satisfy the policy, and
      none may stand two to n + 1 places after itself; with no history to check, the policy alone decides. */
  lemma PossiblePasswords(p: Policy, s: Store, user: UserId, ps: seq<string>)
    requires ps != [] && user in s.users && s.users[user].password == Some(ps[0])
    requires HistoryOf(s.history, user) == []
    ensures AllGranted(p, s, Going(user, ps))
        <==> AllAcceptable(p, ps) && (p.historyCount > 0 ==> Spaced(ps, 0, p.historyCount))
  {
    hide HistoryOf, Going, AllGranted, AllAcceptable, Spaced;
    GoingFrom(p, s, user, ps);
    SpacedAtStart(ps, p.historyCount);
    assert HistoryOf(s.history, user) + ps == ps;
  }

  // ----- runs that mix changes and resets of a user -----

  /** A new password, and who sets it. */
  datatype Choice = Choice(bySelf: bool, password: string)

  /** The requests that carry out the choices, from the current password on. */
  function Requests(user: UserId, current: string, plan: seq<Choice>): seq<Request>
    decreases |plan|
  {
    if plan == [] then []
    else
      var next := plan[0].password;
      [if plan[0].bySelf then SelfChange(user, current, next, next) else Reset(user, next)]
      + Requests(user, next, plan[1..])
  }

  /** The passwords that are given up by self-service on the way. */
  function GivenUp(current: string, plan: seq<Choice>): seq<string>
    decreases |plan|
  {
    if plan == [] then []
    else (if plan[0].bySelf then [current] else []) + GivenUp(plan[0].password, plan[1..])
  }

  predicate MayChoose(p: Policy, history: seq<string>, c: Choice) {
    c.bySelf ==> Acceptable(p, c.password) && Fresh(p, history, c.password)
  }

  predicate PlanFits(p: Policy, h: seq<string>, current: string, plan: seq<Choice>) {
    forall i :: 0 <= i < |plan| ==> MayChoose(p, h + GivenUp(current, plan[..i]), plan[i])
  }

  lemma PlanStep(p: Policy, h: seq<string>, current: string, plan: seq<Choice>)
    requires plan != []
    ensures PlanFits(p, h, current, plan)
       <==> && MayChoose(p, h, plan[0])
            && PlanFits(p, h + (if plan[0].bySelf then [current] else []), plan[0].password, plan[1..])
  {
    var here := if plan[0].bySelf then [current] else [];
    var rest := plan[1..];
    hide MayChoose;
    assert plan[..0] == [] && h + [] == h;
    forall i | 0 <= i < |rest|
      ensures h + GivenUp(current, plan[..i + 1]) == (h + here) + GivenUp(plan[0].password, rest[..i])
    {
      assert plan[..i + 1][1..] == rest[..i];
    }
    assert forall i :: 0 < i < |plan| ==> plan[i] == rest[i - 1];
  }

  lemma RequestStep(p: Policy, s: Store, user: UserId, current: string, plan: seq<Choice>)
    requires plan != [] && user in s.users && s.users[user].password == Some(current)
    ensures var h, next := HistoryOf(s.history, user), Handle(p, s, Requests(user, current, plan)[0]);
            && (AllGranted(p, s, Requests(user, current, plan)) <==>
                  MayChoose(p, h, plan[0]) && AllGranted(p, next, Requests(user, plan[0].password, plan[1..])))
            && (MayChoose(p, h, plan[0]) ==>
                  && user in next.users && next.users[user].password == Some(plan[0].password)
                  && HistoryOf(next.history, user) == h + if plan[0].bySelf then [current] else [])
  {
    var rs := Requests(user, current, plan);
    assert rs[1..] == Requests(user, plan[0].password, plan[1..]);
    HandleRetires(p, s, rs[0], user);
    hide Acceptable, Fresh, HistoryOf;
    assert Granted(p, s, rs[0]) <==> MayChoose(p, HistoryOf(s.history, user), plan[0]);
  }

  /** Exactly which choices succeed, one after the other, when resets and changes of a user are mixed: resets
      always do, and a change does if it satisfies the policy and is none of the last n given up by
      self-service, in the history before the run or in the run itself. */
  lemma {:induction false} PossibleChoices(p: Policy, s: Store, user: UserId, current: string, plan: seq<Choice>)
    requires user in s.users && s.users[user].password == Some(current)
    ensures AllGranted(p, s, Requests(user, current, plan))
       <==> PlanFits(p, HistoryOf(s.history, user), current, plan)
    decreases |plan|
  {
    if plan != [] {
      hide *;
      var h, next := HistoryOf(s.history, user), Handle(p, s, Requests(user, current, plan)[0]);
      RequestStep(p, s, user, current, plan);
      PlanStep(p, h, current, plan);
      if MayChoose(p, h, plan[0]) {
        PossibleChoices(p, next, user, plan[0].password, plan[1..]);
      }
    }
  }

  /** The password in use is no part of the history, so it may be chosen again. */
  lemma CurrentMayBeKept(p: Policy, s: Store, user: UserId, password: string)
    requires user in s.users && Verifies(password, s.users[user]) && Acceptable(p, password)
    requires HistoryOf(s.history, user) == []
    ensures Granted(p, s, SelfChange(user, password, password, password))
  {
  }

  /** A password that an admin's reset took away may be chosen again right after the reset. */
  lemma ResetForgets(p: Policy, s: Store, user: UserId, password: string, given: string)
    requires user in s.users && Verifies(password, s.users[user]) && Acceptable(p, password)
    requires HistoryOf(s.history, user) == []
    ensures AllGranted(p, s, [Reset(user, given), SelfChange(user, given, password, password)])
  {
    var rs := [Reset(user, given), SelfChange(user, given, password, password)];
    assert rs[1..] == [SelfChange(user, given, password, password)] && rs[1..][1..] == [];
    assert AllGranted(p, Handle(p, s, rs[0]), rs[1..]);
  }
}
