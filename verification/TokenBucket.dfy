/** The token bucket that limits questions to the AI assistant. Time is in seconds and
    the clock never runs backwards; tokens are real numbers. */
module TokenBucket {
  datatype Bucket = Bucket(tokens: real, last: real, capacity: real)

  function Min(a: real, b: real): real {
    if a <= b then a else b
  }

  /** capacity / 3600 tokens a second. */
  function Refill(elapsed: real, capacity: real): real {
    elapsed * (capacity / 3600.0)
  }

  /** The tokens after a refill, never above the capacity. */
  function Refilled(b: Bucket, now: real): real {
    Min(b.capacity, b.tokens + Refill(now - b.last, b.capacity))
  }

  function Grants(b: Bucket, now: real): bool {
    Refilled(b, now) >= 1.0
  }

  function Consumed(b: Bucket, now: real): Bucket {
    Bucket(if Grants(b, now) then Refilled(b, now) - 1.0 else Refilled(b, now), now, b.capacity)
  }

  /** One question: the configured limit, the clock when the bucket is reset, if it is, and the clock when
      it is used. */
  datatype Ask = Ask(limit: int, resetAt: real, at: real)

  function Ready(b: Bucket, a: Ask): Bucket {
    if b.capacity != a.limit as real then Bucket(a.limit as real, a.resetAt, a.limit as real) else b
  }

  function AfterAsk(b: Bucket, a: Ask): Bucket {
    Consumed(Ready(b, a), a.at)
  }

  function AskGrants(b: Bucket, a: Ask): bool {
    Grants(Ready(b, a), a.at)
  }

  class RateLimiter {
    var tokens: real
    var lastRefill: real
    var capacity: real

    function State(): Bucket
      reads this
    {
      Bucket(tokens, lastRefill, capacity)
    }

    /** The module starts with an empty bucket of no capacity. */
    constructor ()
      ensures State() == Bucket(0.0, 0.0, 0.0)
    {
      tokens, lastRefill, capacity := 0.0, 0.0, 0.0;
    }

    method Init(limit: int, now: real)
      modifies this
      ensures State() == Bucket(limit as real, now, limit as real)
    {
      capacity := limit as real;
      tokens := limit as real;
      lastRefill := now;
    }

    method ConsumeToken(now: real) returns (allowed: bool)
      modifies this
      ensures State() == Consumed(old(State()), now)
      ensures allowed == Grants(old(State()), now)
    {
      var elapsed := now - lastRefill;
      var refill := Refill(elapsed, capacity);
      tokens := if capacity <= tokens + refill then capacity else tokens + refill;
      lastRefill := now;
      if tokens >= 1.0 {
        tokens := tokens - 1.0;
        return true;
      }
      return false;
    }

    /** The limiter section of a question; a denial is reported to the asker as an error. */
    method AskFor(a: Ask) returns (allowed: bool)
      modifies this
      ensures State() == AfterAsk(old(State()), a)
      ensures allowed == AskGrants(old(State()), a)
    {
      if capacity != a.limit as real {
        Init(a.limit, a.resetAt);
      }
      allowed := ConsumeToken(a.at);
    }
  }

  // ----- runs -----

  function AfterAll(b: Bucket, asks: seq<Ask>): Bucket
    decreases |asks|
  {
    if asks == [] then b else AfterAll(AfterAsk(b, asks[0]), asks[1..])
  }

  function Granted(b: Bucket, asks: seq<Ask>): nat
    decreases |asks|
  {
    if asks == [] then 0
    else (if AskGrants(b, asks[0]) then 1 else 0) + Granted(AfterAsk(b, asks[0]), asks[1..])
  }

  /** The clock readings of a run, from time `since` on, are in order. */
  ghost predicate InOrder(since: real, asks: seq<Ask>)
    decreases |asks|
  {
    asks == [] || (since <= asks[0].resetAt <= asks[0].at && InOrder(asks[0].at, asks[1..]))
  }

  /** What every reachable bucket satisfies: never above capacity, and between zero and capacity
      when the capacity is not negative. */
  ghost predicate Sound(b: Bucket) {
    b.tokens <= b.capacity && (b.capacity >= 0.0 ==> b.tokens >= 0.0)
  }

  lemma RefillSign(elapsed: real, capacity: real)
    requires elapsed >= 0.0
    ensures capacity >= 0.0 ==> Refill(elapsed, capacity) >= 0.0
    ensures capacity <= 0.0 ==> Refill(elapsed, capacity) <= 0.0
  {
  }

  lemma RefillSplits(x: real, y: real, z: real, capacity: real)
    ensures Refill(y - x, capacity) + Refill(z - y, capacity) == Refill(z - x, capacity)
  {
  }

  lemma AskSound(b: Bucket, a: Ask)
    requires Sound(b) && b.last <= a.resetAt <= a.at
    ensures Sound(AfterAsk(b, a)) && AfterAsk(b, a).last == a.at && AfterAsk(b, a).capacity == a.limit as real
  {
    hide Refill;
    RefillSign(a.at - Ready(b, a).last, a.limit as real);
  }

  /** Tokens stay between zero and the limit in every run of the limiter. */
  lemma {:induction false} TokensStayInRange(asks: seq<Ask>, b: Bucket)
    requires Sound(b) && InOrder(b.last, asks)
    ensures Sound(AfterAll(b, asks))
    ensures asks != [] ==> AfterAll(b, asks).capacity == asks[|asks| - 1].limit as real
    decreases |asks|
  {
    if asks != [] {
      AskSound(b, asks[0]);
      TokensStayInRange(asks[1..], AfterAsk(b, asks[0]));
    }
  }

  // ----- the bound on grants -----

  ghost predicate ConstantLimit(asks: seq<Ask>, limit: int) {
    forall i :: 0 <= i < |asks| ==> asks[i].limit == limit
  }

  function Span(asks: seq<Ask>): real
    requires asks != []
  {
    asks[|asks| - 1].at - asks[0].at
  }

  /** A limit, and as much again for every hour; nothing for a limit that is not positive. */
  function Allowance(limit: int, span: real): real {
    if limit <= 0 then 0.0 else limit as real + limit as real * span / 3600.0
  }

  /** A limit of L refills L / 3600 tokens a second. */
  lemma RefillIs(span: real, limit: int)
    requires limit > 0
    ensures Allowance(limit, span) == limit as real + Refill(span, limit as real)
  {
    var l := limit as real;
    assert span * (l / 3600.0) == l * span / 3600.0 by {
      assert (l / 3600.0) * 3600.0 == l;
    }
  }

  lemma StepCost(b: Bucket, a: Ask)
    requires Sound(b) && b.capacity == a.limit as real && b.capacity >= 0.0 && b.last <= a.at
    ensures AfterAsk(b, a).tokens
         <= b.tokens + Refill(a.at - b.last, b.capacity) - if AskGrants(b, a) then 1.0 else 0.0
  {
    hide Refill;
  }

  /** Grants are paid for by the tokens present at the start and by the refill since. */
  lemma {:induction false} GrantsArePaid(b: Bucket, asks: seq<Ask>, limit: int)
    requires Sound(b) && InOrder(b.last, asks) && ConstantLimit(asks, limit)
    requires asks != [] && limit >= 0 && b.capacity == limit as real
    ensures Granted(b, asks) as real + AfterAll(b, asks).tokens
         <= b.tokens + Refill(asks[|asks| - 1].at - b.last, b.capacity)
    decreases |asks|
  {
    hide AfterAsk, AskGrants, Sound, Refill;
    var b' := AfterAsk(b, asks[0]);
    AskSound(b, asks[0]);
    StepCost(b, asks[0]);
    if |asks| > 1 {
      GrantsArePaid(b', asks[1..], limit);
      assert asks[1..][|asks| - 2] == asks[|asks| - 1];
      RefillSplits(b.last, asks[0].at, asks[|asks| - 1].at, b.capacity);
    }
  }

  lemma FirstAskLeaves(b: Bucket, a: Ask)
    requires Sound(b) && b.last <= a.resetAt <= a.at
    ensures AfterAsk(b, a).tokens <= a.limit as real - if AskGrants(b, a) then 1.0 else 0.0
    ensures a.limit <= 0 ==> !AskGrants(b, a)
  {
    hide Refill;
  }

  lemma {:induction false} NothingFromNothing(b: Bucket, asks: seq<Ask>, limit: int)
    requires Sound(b) && InOrder(b.last, asks) && ConstantLimit(asks, limit) && limit <= 0
    ensures Granted(b, asks) == 0
    decreases |asks|
  {
    if asks != [] {
      FirstAskLeaves(b, asks[0]);
      AskSound(b, asks[0]);
      NothingFromNothing(AfterAsk(b, asks[0]), asks[1..], limit);
    }
  }

  /** Grants after the first question, from whatever that one left. */
  lemma RestIsPaid(b: Bucket, asks: seq<Ask>, limit: int)
    requires Sound(b) && InOrder(b.last, asks) && ConstantLimit(asks, limit)
    requires limit >= 0 && b.capacity == limit as real
    ensures Granted(b, asks) as real
         <= b.tokens + Refill(if asks == [] then 0.0 else asks[|asks| - 1].at - b.last, b.capacity)
  {
    if asks == [] {
      RefillSign(0.0, b.capacity);
    } else {
      GrantsArePaid(b, asks, limit);
      TokensStayInRange(asks, b);
    }
  }

  /** In a run of questions under one limit, at most the limit plus the refill over the
      span of the run is granted, whatever came before. */
  lemma RunBound(b: Bucket, asks: seq<Ask>, limit: int)
    requires Sound(b) && InOrder(b.last, asks) && ConstantLimit(asks, limit) && asks != []
    ensures Granted(b, asks) as real <= Allowance(limit, Span(asks))
  {
    if limit <= 0 {
      NothingFromNothing(b, asks, limit);
    } else {
      hide AfterAsk, AskGrants, Refill;
      AskSound(b, asks[0]);
      FirstAskLeaves(b, asks[0]);
      RestIsPaid(AfterAsk(b, asks[0]), asks[1..], limit);
      RefillIs(Span(asks), limit);
    }
  }

  // ----- windows and changes of the limit -----

  lemma {:induction false} Split(b: Bucket, a: seq<Ask>, c: seq<Ask>)
    ensures AfterAll(b, a + c) == AfterAll(AfterAll(b, a), c)
    ensures Granted(b, a + c) == Granted(b, a) + Granted(AfterAll(b, a), c)
    decreases |a|
  {
    hide AfterAsk, AskGrants;
    if a == [] {
      assert a + c == c;
    } else {
      assert (a + c)[1..] == a[1..] + c;
      Split(AfterAsk(b, a[0]), a[1..], c);
    }
  }

  lemma {:induction false} OrderSplits(b: Bucket, a: seq<Ask>, c: seq<Ask>)
    requires InOrder(b.last, a + c)
    ensures InOrder(b.last, a) && InOrder(AfterAll(b, a).last, c)
    decreases |a|
  {
    if a == [] {
      assert a + c == c;
    } else {
      assert (a + c)[1..] == a[1..] + c;
      OrderSplits(AfterAsk(b, a[0]), a[1..], c);
    }
  }

  const EMPTY_BUCKET := Bucket(0.0, 0.0, 0.0)

  lemma MiddleInOrder(b: Bucket, asks: seq<Ask>, i: nat, j: nat)
    requires Sound(b) && InOrder(b.last, asks) && i <= j <= |asks|
    ensures Sound(AfterAll(b, asks[..i])) && InOrder(AfterAll(b, asks[..i]).last, asks[i..j])
  {
    hide AfterAsk, AskGrants, Refill, Sound;
    assert asks == asks[..i] + asks[i..];
    OrderSplits(b, asks[..i], asks[i..]);
    TokensStayInRange(asks[..i], b);
    assert asks[i..] == asks[i..j] + asks[j..];
    OrderSplits(AfterAll(b, asks[..i]), asks[i..j], asks[j..]);
  }

  lemma WindowAllowance(asks: seq<Ask>, i: nat, j: nat, limit: int)
    requires InOrder(0.0, asks) && i < j <= |asks| && ConstantLimit(asks[i..j], limit)
    ensures Granted(AfterAll(EMPTY_BUCKET, asks[..i]), asks[i..j]) as real
         <= Allowance(limit, asks[j - 1].at - asks[i].at)
  {
    MiddleInOrder(EMPTY_BUCKET, asks, i, j);
    hide AfterAsk, AskGrants, Refill, Granted, Allowance, AfterAll, Sound, InOrder, ConstantLimit;
    RunBound(AfterAll(EMPTY_BUCKET, asks[..i]), asks[i..j], limit);
  }

  /** Every window of every run that starts with the process: questions i to j, under one limit L, get at
      most L answers and another L for every hour between them, and none if L is not positive. */
  lemma WindowBound(asks: seq<Ask>, i: nat, j: nat, limit: int)
    requires InOrder(0.0, asks) && i < j <= |asks| && ConstantLimit(asks[i..j], limit)
    ensures limit <= 0 ==> Granted(AfterAll(EMPTY_BUCKET, asks[..i]), asks[i..j]) == 0
    ensures limit > 0 ==> Granted(AfterAll(EMPTY_BUCKET, asks[..i]), asks[i..j]) as real
                          <= limit as real + limit as real * (asks[j - 1].at - asks[i].at) / 3600.0
  {
    WindowAllowance(asks, i, j, limit);
    hide Granted, AfterAll, InOrder, ConstantLimit;
  }

  /** How many questions at the head of a run share its first limit. */
  function EpochLength(asks: seq<Ask>): (n: nat)
    requires asks != []
    ensures 1 <= n <= |asks|
    ensures forall i :: 0 <= i < n ==> asks[i].limit == asks[0].limit
    ensures n < |asks| ==> asks[n].limit != asks[0].limit
    decreases |asks|
  {
    if |asks| > 1 && asks[1].limit == asks[0].limit then 1 + EpochLength(asks[1..]) else 1
  }

  /** The bounds of the stretches between changes of the limit, added up. */
  function EpochBound(asks: seq<Ask>): real
    decreases |asks|
  {
    if asks == [] then 0.0
    else
      var n := EpochLength(asks);
      Allowance(asks[0].limit, Span(asks[..n])) + EpochBound(asks[n..])
  }

  /** With any changes of the limit, a run is granted at most the sum of its epochs' bounds. */
  lemma {:induction false} EpochsBound(b: Bucket, asks: seq<Ask>)
    requires Sound(b) && InOrder(b.last, asks)
    ensures Granted(b, asks) as real <= EpochBound(asks)
    decreases |asks|
  {
    if asks != [] {
      var n := EpochLength(asks);
      var rest := EpochBound(asks[n..]);
      assert EpochBound(asks) == Allowance(asks[0].limit, Span(asks[..n])) + rest;
      assert asks == asks[..n] + asks[n..];
      assert ConstantLimit(asks[..n], asks[0].limit);
      hide AfterAsk, AskGrants, Refill, Granted, Allowance, AfterAll, Sound, InOrder, ConstantLimit, EpochBound;
      Split(b, asks[..n], asks[n..]);
      OrderSplits(b, asks[..n], asks[n..]);
      TokensStayInRange(asks[..n], b);
      RunBound(b, asks[..n], asks[0].limit);
      EpochsBound(AfterAll(b, asks[..n]), asks[n..]);
    }
  }

  // ----- exactly what is granted -----

  /** How many of the questions i to k are granted. */
  function GrantedIn(b: Bucket, asks: seq<Ask>, i: nat, k: nat): nat
    requires i <= k <= |asks|
  {
    Granted(AfterAll(b, asks[..i]), asks[i..k])
  }

  /** What the bound of the window that starts with question i leaves for question k. */
  function Room(b: Bucket, asks: seq<Ask>, i: nat, k: nat): real
    requires i <= k < |asks|
  {
    Allowance(asks[k].limit, asks[k].at - asks[i].at) - GrantedIn(b, asks, i, k) as real
  }

  /** The tokens that question k finds. */
  function TokensFor(b: Bucket, asks: seq<Ask>, k: nat): real
    requires k < |asks|
  {
    Refilled(Ready(AfterAll(b, asks[..k]), asks[k]), asks[k].at)
  }

  ghost predicate IsLeastRoom(b: Bucket, asks: seq<Ask>, k: nat, tokens: real)
    requires k < |asks|
  {
    && (forall i :: 0 <= i <= k ==> tokens <= Room(b, asks, i, k))
    && (exists i :: 0 <= i <= k && tokens == Room(b, asks, i, k))
  }

  lemma OneMoreAsk(b: Bucket, asks: seq<Ask>, i: nat, k: nat)
    requires i <= k < |asks|
    ensures AfterAll(b, asks[..k + 1]) == AfterAsk(AfterAll(b, asks[..k]), asks[k])
    ensures GrantedIn(b, asks, i, k + 1)
         == GrantedIn(b, asks, i, k) + if AskGrants(AfterAll(b, asks[..k]), asks[k]) then 1 else 0
    ensures GrantedIn(b, asks, k, k) == 0
  {
    hide AfterAsk, AskGrants;
    var one := [asks[k]];
    assert one[1..] == [];
    assert asks[..k + 1] == asks[..k] + one && asks[i..k + 1] == asks[i..k] + one;
    assert asks[..k] == asks[..i] + asks[i..k];
    Split(b, asks[..k], one);
    Split(AfterAll(b, asks[..i]), asks[i..k], one);
    Split(b, asks[..i], asks[i..k]);
    assert AfterAll(AfterAll(b, asks[..k]), one) == AfterAll(AfterAsk(AfterAll(b, asks[..k]), asks[k]), []);
    assert Granted(AfterAll(b, asks[..k]), one)
        == (if AskGrants(AfterAll(b, asks[..k]), asks[k]) then 1 else 0)
           + Granted(AfterAsk(AfterAll(b, asks[..k]), asks[k]), []);
  }

  /** With one question more, all windows but the newest lose what was granted and gain the refill. */
  lemma RoomStep(b: Bucket, asks: seq<Ask>, i: nat, k: nat)
    requires i <= k && k + 1 < |asks| && asks[k].limit == asks[k + 1].limit > 0
    ensures Room(b, asks, i, k + 1)
         == Room(b, asks, i, k) - (if AskGrants(AfterAll(b, asks[..k]), asks[k]) then 1.0 else 0.0)
            + Refill(asks[k + 1].at - asks[k].at, asks[k].limit as real)
  {
    OneMoreAsk(b, asks, i, k);
    var limit, x, y, z := asks[k].limit, asks[i].at, asks[k].at, asks[k + 1].at;
    hide GrantedIn, AskGrants, AfterAll;
    RefillIs(y - x, limit);
    RefillIs(z - x, limit);
    hide Allowance;
    RefillSplits(x, y, z, limit as real);
    hide Refill;
  }

  lemma NewestRoom(b: Bucket, asks: seq<Ask>, k: nat)
    requires k < |asks| && asks[k].limit > 0
    ensures Room(b, asks, k, k) == asks[k].limit as real
  {
    OneMoreAsk(b, asks, k, k);
    hide GrantedIn;
  }

  lemma TokensStep(b: Bucket, asks: seq<Ask>, k: nat)
    requires k + 1 < |asks| && asks[k].limit == asks[k + 1].limit
    ensures var granted := AskGrants(AfterAll(b, asks[..k]), asks[k]);
            var limit := asks[k].limit as real;
            && (granted <==> TokensFor(b, asks, k) >= 1.0)
            && TokensFor(b, asks, k + 1)
            == Min(limit, TokensFor(b, asks, k) - (if granted then 1.0 else 0.0)
                          + Refill(asks[k + 1].at - asks[k].at, limit))
  {
    OneMoreAsk(b, asks, k, k);
    hide AfterAll, Refill;
  }

  lemma LeastRoomStep(b: Bucket, asks: seq<Ask>, k: nat, before: real, gain: real)
    requires k + 1 < |asks| && IsLeastRoom(b, asks, k, before)
    requires forall i :: 0 <= i <= k ==> Room(b, asks, i, k + 1) == Room(b, asks, i, k) + gain
    ensures IsLeastRoom(b, asks, k + 1, Min(Room(b, asks, k + 1, k + 1), before + gain))
  {
    hide Room;
    var least :| 0 <= least <= k && before == Room(b, asks, least, k);
    var next, now := k + 1, Min(Room(b, asks, k + 1, k + 1), before + gain);
    assert now == Room(b, asks, least, next) || now == Room(b, asks, next, next);
    forall i | 0 <= i <= next
      ensures now <= Room(b, asks, i, next)
    {
      assert i <= k ==> Room(b, asks, i, next) == Room(b, asks, i, k) + gain && before <= Room(b, asks, i, k);
    }
  }

  lemma FirstTokens(b: Bucket, asks: seq<Ask>, limit: int)
    requires asks != [] && InOrder(b.last, asks) && asks[0].limit == limit > 0 && b.capacity != limit as real
    ensures TokensFor(b, asks, 0) == limit as real
  {
    assert asks[..0] == [];
    RefillSign(asks[0].at - asks[0].resetAt, limit as real);
    hide Refill;
  }

  lemma {:induction false} TokensAreLeastRoom(b: Bucket, asks: seq<Ask>, k: nat, limit: int)
    requires InOrder(b.last, asks) && ConstantLimit(asks, limit) && k < |asks|
    requires limit > 0 && b.capacity != limit as real
    ensures IsLeastRoom(b, asks, k, TokensFor(b, asks, k))
    decreases k
  {
    assert forall i :: 0 <= i <= k ==> asks[i].limit == limit;
    if k == 0 {
      NewestRoom(b, asks, 0);
      FirstTokens(b, asks, limit);
      hide Room, TokensFor;
    } else {
      hide *;
      TokensAreLeastRoom(b, asks, k - 1, limit);
      LeastTokensStep(b, asks, k - 1);
    }
  }

  lemma LeastTokensStep(b: Bucket, asks: seq<Ask>, k: nat)
    requires k + 1 < |asks| && asks[k].limit == asks[k + 1].limit > 0
    requires IsLeastRoom(b, asks, k, TokensFor(b, asks, k))
    ensures IsLeastRoom(b, asks, k + 1, TokensFor(b, asks, k + 1))
  {
    hide *;
    TokensStep(b, asks, k);
    NewestRoom(b, asks, k + 1);
    var lost := if AskGrants(AfterAll(b, asks[..k]), asks[k]) then 1.0 else 0.0;
    var gain := Refill(asks[k + 1].at - asks[k].at, asks[k].limit as real) - lost;
    forall i | 0 <= i <= k
      ensures Room(b, asks, i, k + 1) == Room(b, asks, i, k) + gain
    {
      RoomStep(b, asks, i, k);
    }
    LeastRoomStep(b, asks, k, TokensFor(b, asks, k), gain);
    assert TokensFor(b, asks, k) + gain == TokensFor(b, asks, k) - lost
        + Refill(asks[k + 1].at - asks[k].at, asks[k].limit as real);
  }

  /** From the first question under a new limit L on, until it changes again, a question is granted exactly
      if that breaks no window's bound: for every question i before it, and for itself, the grants from
      i on and this one are at most L and another L for every hour since i. */
  lemma GrantedExactly(b: Bucket, asks: seq<Ask>, k: nat, limit: int)
    requires InOrder(b.last, asks) && ConstantLimit(asks, limit) && k < |asks|
    requires limit > 0 && b.capacity != limit as real
    ensures AskGrants(AfterAll(b, asks[..k]), asks[k])
       <==> forall i :: 0 <= i <= k ==>
              GrantedIn(b, asks, i, k) as real + 1.0
              <= limit as real + limit as real * (asks[k].at - asks[i].at) / 3600.0
  {
    TokensAreLeastRoom(b, asks, k, limit);
    assert AskGrants(AfterAll(b, asks[..k]), asks[k]) <==> TokensFor(b, asks, k) >= 1.0;
    assert asks[k].limit == limit;
    forall i | 0 <= i <= k
      ensures Room(b, asks, i, k)
           == limit as real + limit as real * (asks[k].at - asks[i].at) / 3600.0 - GrantedIn(b, asks, i, k) as real
    {
    }
    hide TokensFor, AskGrants, AfterAll, GrantedIn, InOrder, Room, ConstantLimit;
  }

  // ----- denied questions -----

  lemma DenialIsInvisible(b: Bucket, denied: Ask, a: Ask)
    requires Sound(b) && b.last <= denied.at <= a.at
    requires denied.limit as real == b.capacity && a.limit == denied.limit && !AskGrants(b, denied)
    ensures AfterAsk(AfterAsk(b, denied), a) == AfterAsk(b, a)
    ensures AskGrants(AfterAsk(b, denied), a) == AskGrants(b, a)
  {
    hide Refill;
    RefillSplits(b.last, denied.at, a.at, b.capacity);
    RefillSign(denied.at - b.last, b.capacity);
    RefillSign(a.at - denied.at, b.capacity);
  }

  /** The bucket after any number of denied questions and then one at time t is the bucket
      that the question at time t alone would have left, and the answer is the same. */
  lemma {:induction false} DenialsAreInvisible(b: Bucket, denied: seq<Ask>, a: Ask)
    requires Sound(b) && InOrder(b.last, denied + [a]) && ConstantLimit(denied + [a], a.limit)
    requires b.capacity == a.limit as real && Granted(b, denied) == 0
    ensures AfterAsk(AfterAll(b, denied), a) == AfterAsk(b, a)
    ensures AskGrants(AfterAll(b, denied), a) == AskGrants(b, a)
    decreases |denied|
  {
    hide AfterAsk, AskGrants, Sound, Refill;
    if denied != [] {
      assert (denied + [a])[0] == denied[0];
      assert (denied + [a])[1..] == denied[1..] + [a];
      AskSound(b, denied[0]);
      var b' := AfterAsk(b, denied[0]);
      DenialsAreInvisible(b', denied[1..], a);
      LastIsLate(denied[0].at, denied[1..], a);
      DenialIsInvisible(b, denied[0], a);
    }
  }

  lemma {:induction false} LastIsLate(since: real, asks: seq<Ask>, a: Ask)
    requires InOrder(since, asks + [a])
    ensures since <= a.at
    decreases |asks|
  {
    if asks != [] {
      assert (asks + [a])[1..] == asks[1..] + [a];
      LastIsLate(asks[0].at, asks[1..], a);
    }
  }

  lemma RefillsOne(limit: int, waited: real)
    requires limit >= 1 && waited >= 3600.0 / limit as real
    ensures Refill(waited, limit as real) >= 1.0
  {
    var l := limit as real;
    assert (3600.0 / l) * l == 3600.0;
    assert (waited - 3600.0 / l) * l >= 0.0;
    assert waited * l >= 3600.0;
  }

  lemma NextIsGranted(b: Bucket, a: Ask)
    requires Sound(b) && a.limit >= 1 && b.capacity == a.limit as real
    requires a.at >= b.last + 3600.0 / a.limit as real
    ensures AskGrants(b, a)
  {
    RefillsOne(a.limit, a.at - b.last);
    hide Refill;
  }

  /** After a denial, a question asked at least 3600 / limit seconds later is granted, however
      many were denied in between. */
  lemma RetryIsGranted(b: Bucket, first: Ask, denied: seq<Ask>, a: Ask)
    requires Sound(b) && InOrder(b.last, [first] + (denied + [a])) && ConstantLimit([first] + (denied + [a]), a.limit)
    requires Granted(b, [first] + denied) == 0
    requires a.limit >= 1 && a.at >= first.at + 3600.0 / a.limit as real
    ensures AskGrants(AfterAll(b, [first] + denied), a)
  {
    hide AfterAsk, AskGrants, Sound, Refill;
    var all := [first] + (denied + [a]);
    assert all[0] == first && all[1..] == denied + [a];
    assert ([first] + denied)[0] == first && ([first] + denied)[1..] == denied;
    assert forall i :: 0 <= i < |denied + [a]| ==> (denied + [a])[i] == all[i + 1];
    AskSound(b, first);
    var b' := AfterAsk(b, first);
    DenialsAreInvisible(b', denied, a);
    NextIsGranted(b', a);
  }
}
