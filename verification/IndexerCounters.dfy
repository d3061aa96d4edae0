/** The counters of the indexers count results: over any operations, in any order, by any threads. */
module IndexerCounters {
  import opened Results
  import opened Decimals
  import opened IniStore
  import opened SettingsExchange

  datatype Outcome = Outcome(id: nat, success: bool)

  /** Who is who: every indexer section ever created has an identity, which a rename carries
      along, and every result recorded is logged against the identity. */
  datatype Registry = Registry(ids: map<string, nat>, next: nat, log: seq<Outcome>)

  function Follow(g: Registry, f: File, op: Op): Registry {
    match op
    case SetValue(_, _) => g
    case Create(name, _) =>
      if IndexerSection(name) in f then g else g.(ids := g.ids[name := g.next], next := g.next + 1)
    case Update(name, _, newName) =>
      if name in g.ids && Renames(op) && IndexerSection(newName.value) !in f
      then g.(ids := (g.ids - {name})[newName.value := g.ids[name]])
      else g
    case Remove(name) => g.(ids := g.ids - {name})
    case Record(name, success, _, _) =>
      if name in g.ids then g.(log := g.log + [Outcome(g.ids[name], success)]) else g
  }

  function FollowAll(s: Settings, g: Registry, f: File, ops: seq<Op>): Registry
    decreases |ops|
  {
    if ops == [] then g else FollowAll(s, Follow(g, f, ops[0]), Apply(s, f, ops[0]), ops[1..])
  }

  function Logged(log: seq<Outcome>, id: nat, success: bool): nat {
    if log == [] then 0
    else Logged(log[..|log| - 1], id, success) + if log[|log| - 1] == Outcome(id, success) then 1 else 0
  }

  lemma LoggedOneMore(log: seq<Outcome>, o: Outcome, id: nat, success: bool)
    ensures Logged(log + [o], id, success) == Logged(log, id, success) + if o == Outcome(id, success) then 1 else 0
  {
    assert (log + [o])[..|log|] == log;
  }

  lemma {:induction false} UnknownIsNotLogged(log: seq<Outcome>, id: nat, success: bool)
    requires forall i :: 0 <= i < |log| ==> log[i].id < id
    ensures Logged(log, id, success) == 0
  {
    if log != [] {
      UnknownIsNotLogged(log[..|log| - 1], id, success);
    }
  }

  /** An indexer that is stored has an identity and counts what was logged against it. */
  predicate Faithful(g: Registry, f: File, name: string) {
    && (name in g.ids <==> IndexerSection(name) in f)
    && (name in g.ids ==>
          && g.ids[name] < g.next
          && Counter(f[IndexerSection(name)], true) == Some(Logged(g.log, g.ids[name], true))
          && Counter(f[IndexerSection(name)], false) == Some(Logged(g.log, g.ids[name], false)))
  }

  ghost predicate Inv(g: Registry, f: File) {
    && (forall name :: Faithful(g, f, name))
    && (forall i :: 0 <= i < |g.log| ==> g.log[i].id < g.next)
    && (forall a, b :: a in g.ids && b in g.ids && g.ids[a] == g.ids[b] ==> a == b)
  }

  lemma {:induction false} ChangedKeepsCounter(sec: Section, changes: seq<Change>, success: bool)
    ensures Counter(Changed(sec, changes), success) == Counter(sec, success)
    decreases |changes|
  {
    if changes != [] {
      var next := if changes[0].field in FIELDS then sec[changes[0].field := changes[0].value] else sec;
      assert SUCCESS_COUNT !in FIELDS && FAILURE_COUNT !in FIELDS;
      ChangedKeepsCounter(next, changes[1..], success);
    }
  }

  lemma KeysDiffer()
    ensures SUCCESS_COUNT != FAILURE_COUNT
    ensures {SUCCESS_COUNT, FAILURE_COUNT} !! {LAST_SUCCESS, LAST_FAILURE, LAST_RESPONSE}
    ensures {SUCCESS_COUNT, FAILURE_COUNT} !! FIELDS
  {
    assert SUCCESS_COUNT[0] != FAILURE_COUNT[0];
    assert |SUCCESS_COUNT| == 13 && |FAILURE_COUNT| == 13 && |LAST_SUCCESS| == 15 && |LAST_FAILURE| == 15;
    assert |LAST_RESPONSE| == 16;
    assert forall x :: x in FIELDS ==> |x| < 13;
  }

  lemma RecordedCounter(sec: Section, success: bool, count: int, millis: int, now: string, which: bool)
    ensures Counter(Recorded(sec, success, count, millis, now), which)
         == if which == success then Some(count) else Counter(sec, which)
  {
    ParsePrintInt(count);
    KeysDiffer();
    var r := Recorded(sec, success, count, millis, now);
    var key := CounterKey(which);
    assert key !in {LAST_SUCCESS, LAST_FAILURE, LAST_RESPONSE};
    if which == success {
      assert key in r && r[key] == PrintInt(count);
    } else {
      assert CounterKey(success) != key;
    }
  }

  lemma NewCounter(x: IndexerFields, which: bool)
    ensures Counter(NewSection(x), which) == Some(0)
  {
    KeysDiffer();
    assert NewSection(x).Keys == FIELDS;
    assert CounterKey(which) in {SUCCESS_COUNT, FAILURE_COUNT};
  }

  function StatsWith(before: Stats, success: bool, millis: int, now: string): Stats {
    if success then before.(successes := before.successes + 1, lastSuccess := Some(now), lastResponse := millis)
    else before.(failures := before.failures + 1, lastFailure := Some(now), lastResponse := millis)
  }

  lemma ThreeWrites(sec: Section, a: string, x: string, b: string, y: string, c: string, z: string)
    requires a != b && a != c && b != c
    ensures var r := sec[a := x][b := y][c := z];
            && GetText(r, b) == Some(y)
            && c in r && r[c] == z
            && forall k :: k != a && k != b && k != c ==> GetText(r, k) == GetText(sec, k)
  {
  }

  lemma LastKeysDiffer(success: bool)
    ensures CounterKey(success) != LastKey(success) && CounterKey(success) != LAST_RESPONSE
    ensures LastKey(success) != LAST_RESPONSE && LastKey(!success) != LAST_RESPONSE
    ensures LastKey(!success) != LastKey(success) && LastKey(!success) != CounterKey(success)
  {
    KeysDiffer();
    assert LAST_SUCCESS[5] != LAST_FAILURE[5] && |LAST_RESPONSE| != |LAST_SUCCESS| && |LAST_RESPONSE| != |LAST_FAILURE|;
  }

  lemma RecordedTexts(sec: Section, success: bool, count: int, millis: int, now: string)
    ensures var r := Recorded(sec, success, count, millis, now);
            && GetInt(r, LAST_RESPONSE) == Some(millis)
            && GetText(r, LastKey(success)) == Some(now)
            && GetText(r, LastKey(!success)) == GetText(sec, LastKey(!success))
  {
    ParsePrintInt(millis);
    LastKeysDiffer(success);
    hide ParseInt, PrintInt, CounterKey, LastKey;
    ThreeWrites(sec, CounterKey(success), PrintInt(count), LastKey(success), now, LAST_RESPONSE, PrintInt(millis));
    hide GetText;
  }

  lemma RecordApplies(s: Settings, f: File, op: Op)
    requires op.Record? && IndexerSection(op.name) in f && Counter(f[IndexerSection(op.name)], op.success).Some?
    ensures var sec := f[IndexerSection(op.name)];
            && IndexerSection(op.name) in Apply(s, f, op)
            && Apply(s, f, op)[IndexerSection(op.name)]
            == Recorded(sec, op.success, Counter(sec, op.success).value + 1, op.millis, op.now)
  {
    hide Counter, Recorded, IndexerSection;
  }

  lemma StatsAfterRecord(sec: Section, success: bool, millis: int, now: string)
    requires StatsOf(sec).Success?
    ensures Counter(sec, success).Some?
    ensures StatsOf(Recorded(sec, success, Counter(sec, success).value + 1, millis, now))
         == Success(StatsWith(StatsOf(sec).value, success, millis, now))
  {
    hide Counter, Recorded, GetText, GetInt;
    var n := Counter(sec, success).value + 1;
    RecordedCounter(sec, success, n, millis, now, true);
    RecordedCounter(sec, success, n, millis, now, false);
    RecordedTexts(sec, success, n, millis, now);
  }

  /** A recorded result shows in the statistics: its counter is one higher, its time and duration are the
      last, and nothing else of them changes. */
  lemma RecordShows(s: Settings, f: File, name: string, success: bool, millis: int, now: string)
    requires IndexerSection(name) in f && StoredStats(f, name).Success?
    ensures StoredStats(Apply(s, f, Record(name, success, millis, now)), name)
         == Success(StatsWith(StoredStats(f, name).value, success, millis, now))
  {
    hide StatsOf, Apply, Counter, Recorded, IndexerSection, StatsWith;
    StatsAfterRecord(f[IndexerSection(name)], success, millis, now);
    RecordApplies(s, f, Record(name, success, millis, now));
  }

  /** Operations on other sections do not bear on an indexer. */
  lemma StaysFaithful(s: Settings, g: Registry, f: File, op: Op, name: string)
    requires Inv(g, f) && IndexerSection(name) !in Footprint(s, op)
    ensures Faithful(Follow(g, f, op), Apply(s, f, op), name)
  {
    assert Faithful(g, f, name);
    OthersUnchanged(s, f, op, IndexerSection(name));
    if op.Record? && op.name in g.ids {
      assert Faithful(g, f, op.name);
      LoggedOneMore(g.log, Outcome(g.ids[op.name], op.success), if name in g.ids then g.ids[name] else 0, true);
      LoggedOneMore(g.log, Outcome(g.ids[op.name], op.success), if name in g.ids then g.ids[name] else 0, false);
      if name in g.ids {
        assert name != op.name;
      }
    }
  }

  lemma CreateIsFaithful(s: Settings, g: Registry, f: File, op: Op)
    requires Inv(g, f) && op.Create?
    ensures Faithful(Follow(g, f, op), Apply(s, f, op), op.name)
  {
    assert Faithful(g, f, op.name);
    NewCounter(op.fields, true);
    NewCounter(op.fields, false);
    UnknownIsNotLogged(g.log, g.next, true);
    UnknownIsNotLogged(g.log, g.next, false);
  }

  lemma RecordCounterIsFaithful(s: Settings, g: Registry, f: File, op: Op, success: bool)
    requires op.Record? && op.name in g.ids && IndexerSection(op.name) in f
    requires forall b :: Counter(f[IndexerSection(op.name)], b) == Some(Logged(g.log, g.ids[op.name], b))
    ensures IndexerSection(op.name) in Apply(s, f, op)
    ensures Counter(Apply(s, f, op)[IndexerSection(op.name)], success)
         == Some(Logged(g.log + [Outcome(g.ids[op.name], op.success)], g.ids[op.name], success))
  {
    hide *;
    var sec, id := f[IndexerSection(op.name)], g.ids[op.name];
    RecordApplies(s, f, op);
    RecordedCounter(sec, op.success, Counter(sec, op.success).value + 1, op.millis, op.now, success);
    LoggedOneMore(g.log, Outcome(id, op.success), id, success);
  }

  lemma RecordIsFaithful(s: Settings, g: Registry, f: File, op: Op)
    requires Inv(g, f) && op.Record?
    ensures Faithful(Follow(g, f, op), Apply(s, f, op), op.name)
  {
    assert Faithful(g, f, op.name);
    hide Inv, Counter, Logged, IndexerSection;
    if op.name in g.ids {
      hide Apply;
      RecordCounterIsFaithful(s, g, f, op, true);
      RecordCounterIsFaithful(s, g, f, op, false);
    }
  }

  lemma UpdateIsFaithful(s: Settings, g: Registry, f: File, op: Op, name: string)
    requires Inv(g, f) && op.Update? && IndexerSection(name) in Footprint(s, op)
    ensures Faithful(Follow(g, f, op), Apply(s, f, op), name)
  {
    assert Faithful(g, f, name) && Faithful(g, f, op.name);
    SectionsDiffer(name, op.name);
    if op.newName.Some? {
      assert Faithful(g, f, op.newName.value);
      SectionsDiffer(name, op.newName.value);
      SectionsDiffer(op.name, op.newName.value);
    }
    if op.name in g.ids {
      ChangedKeepsCounter(f[IndexerSection(op.name)], op.changes, true);
      ChangedKeepsCounter(f[IndexerSection(op.name)], op.changes, false);
    }
  }

  lemma StepFaithful(s: Settings, g: Registry, f: File, op: Op, name: string)
    requires ValidSettings(s) && Inv(g, f)
    ensures Faithful(Follow(g, f, op), Apply(s, f, op), name)
  {
    assert IsIndexerSection(IndexerSection(name));
    if IndexerSection(name) !in Footprint(s, op) {
      StaysFaithful(s, g, f, op, name);
    } else {
      match op {
        case SetValue(_, _) => assert false;
        case Create(n, _) => SectionsDiffer(name, n); CreateIsFaithful(s, g, f, op);
        case Update(_, _, _) => UpdateIsFaithful(s, g, f, op, name);
        case Remove(n) => SectionsDiffer(name, n);
        case Record(n, _, _, _) => SectionsDiffer(name, n); RecordIsFaithful(s, g, f, op);
      }
    }
  }

  lemma StepIds(g: Registry, f: File, op: Op)
    requires Inv(g, f)
    ensures var h := Follow(g, f, op);
            && (forall i :: 0 <= i < |h.log| ==> h.log[i].id < h.next)
            && (forall a, b :: a in h.ids && b in h.ids && h.ids[a] == h.ids[b] ==> a == b)
  {
    hide IndexerSection, Counter, Logged;
    forall name | name in g.ids
      ensures g.ids[name] < g.next
    {
      assert Faithful(g, f, name);
    }
  }

  /** The invariant of one critical section. */
  lemma StepKeeps(s: Settings, g: Registry, f: File, op: Op)
    requires ValidSettings(s) && Inv(g, f)
    ensures Inv(Follow(g, f, op), Apply(s, f, op))
  {
    StepIds(g, f, op);
    forall name
      ensures Faithful(Follow(g, f, op), Apply(s, f, op), name)
    {
      StepFaithful(s, g, f, op, name);
    }
  }

  lemma {:induction false} RunKeeps(s: Settings, g: Registry, f: File, ops: seq<Op>)
    requires ValidSettings(s) && Inv(g, f)
    ensures Inv(FollowAll(s, g, f, ops), ApplyAll(s, f, ops))
    decreases |ops|
  {
    if ops != [] {
      StepKeeps(s, g, f, ops[0]);
      RunKeeps(s, Follow(g, f, ops[0]), Apply(s, f, ops[0]), ops[1..]);
    }
  }

  /** From a file without indexers, after any operations at all: the counters of every indexer
      are the results recorded against it since it was created, under all the names it had. */
  lemma CountersCountResults(s: Settings, f: File, ops: seq<Op>, name: string, success: bool)
    requires ValidSettings(s) && forall section :: section in f ==> !IsIndexerSection(section)
    ensures
      var end, g := ApplyAll(s, f, ops), FollowAll(s, Registry(map[], 0, []), f, ops);
      && (name in g.ids <==> IndexerSection(name) in end)
      && StoredCounter(end, name, success) == Some(if name in g.ids then Logged(g.log, g.ids[name], success) else 0)
  {
    var none := Registry(map[], 0, []);
    forall n
      ensures Faithful(none, f, n)
    {
      assert IsIndexerSection(IndexerSection(n));
    }
    RunKeeps(s, none, f, ops);
    assert Faithful(FollowAll(s, none, f, ops), ApplyAll(s, f, ops), name);
  }

  // ----- threads -----

  /** One order in which the threads may have had the lock, each running its program in turn. */
  ghost predicate Interleaving(threads: seq<seq<Op>>, order: seq<Op>)
    decreases |order|
  {
    if order == [] then forall i :: 0 <= i < |threads| ==> threads[i] == []
    else
      exists i :: 0 <= i < |threads| && threads[i] != [] && threads[i][0] == order[0]
               && Interleaving(threads[i := threads[i][1..]], order[1..])
  }

  /** Operations that neither remove nor rename the indexer. */
  predicate Keeps(op: Op, name: string) {
    && !(op.Remove? && op.name == name)
    && !(op.Update? && op.name == name && Renames(op))
  }

  function RecordsOf(ops: seq<Op>, name: string, success: bool): nat {
    if ops == [] then 0
    else (if ops[0].Record? && ops[0].name == name && ops[0].success == success then 1 else 0)
         + RecordsOf(ops[1..], name, success)
  }

  function AllRecorded(threads: seq<seq<Op>>, name: string, success: bool): nat {
    if threads == [] then 0 else RecordsOf(threads[0], name, success) + AllRecorded(threads[1..], name, success)
  }

  predicate ReadableCounters(f: File, name: string) {
    && IndexerSection(name) in f
    && Counter(f[IndexerSection(name)], true).Some?
    && Counter(f[IndexerSection(name)], false).Some?
  }

  lemma UpdateCounts(s: Settings, f: File, op: Op, name: string)
    requires op.Update? && Keeps(op, name) && IndexerSection(name) in f && IndexerSection(name) in Footprint(s, op)
    ensures IndexerSection(name) in Apply(s, f, op)
    ensures forall b :: Counter(Apply(s, f, op)[IndexerSection(name)], b) == Counter(f[IndexerSection(name)], b)
  {
    SectionsDiffer(name, op.name);
    ChangedKeepsCounter(f[IndexerSection(name)], op.changes, true);
    ChangedKeepsCounter(f[IndexerSection(name)], op.changes, false);
    hide Counter, Changed;
    if op.name != name {
      SectionsDiffer(name, op.newName.value);
    }
  }

  lemma RecordCounts(s: Settings, f: File, op: Op, name: string, success: bool)
    requires op.Record? && op.name == name && ReadableCounters(f, name)
    ensures ReadableCounters(Apply(s, f, op), name)
    ensures Counter(Apply(s, f, op)[IndexerSection(name)], success).value
         == Counter(f[IndexerSection(name)], success).value + if success == op.success then 1 else 0
  {
    hide Counter, Recorded, Apply, IndexerSection;
    var sec := f[IndexerSection(name)];
    RecordApplies(s, f, op);
    RecordedCounter(sec, op.success, Counter(sec, op.success).value + 1, op.millis, op.now, true);
    RecordedCounter(sec, op.success, Counter(sec, op.success).value + 1, op.millis, op.now, false);
  }

  lemma StepCounts(s: Settings, f: File, op: Op, name: string, success: bool)
    requires ValidSettings(s) && Keeps(op, name) && ReadableCounters(f, name)
    ensures ReadableCounters(Apply(s, f, op), name)
    ensures Counter(Apply(s, f, op)[IndexerSection(name)], success).value
         == Counter(f[IndexerSection(name)], success).value + RecordsOf([op], name, success)
  {
    var section := IndexerSection(name);
    assert RecordsOf([op][1..], name, success) == 0 && IsIndexerSection(section);
    if section !in Footprint(s, op) {
      OthersUnchanged(s, f, op, section);
    } else if op.SetValue? {
      assert false;
    } else {
      SectionsDiffer(name, op.name);
      hide Counter, IndexerSection;
      if op.Update? {
        UpdateCounts(s, f, op, name);
      } else if op.Record? {
        RecordCounts(s, f, op, name, success);
      } else {
        assert op.Create?;
      }
    }
  }

  lemma {:induction false} RunCounts(s: Settings, f: File, ops: seq<Op>, name: string, success: bool)
    requires ValidSettings(s) && ReadableCounters(f, name)
    requires forall i :: 0 <= i < |ops| ==> Keeps(ops[i], name)
    ensures ReadableCounters(ApplyAll(s, f, ops), name)
    ensures Counter(ApplyAll(s, f, ops)[IndexerSection(name)], success).value
         == Counter(f[IndexerSection(name)], success).value + RecordsOf(ops, name, success)
    decreases |ops|
  {
    if ops != [] {
      StepCounts(s, f, ops[0], name, success);
      assert RecordsOf([ops[0]][1..], name, success) == 0;
      RunCounts(s, Apply(s, f, ops[0]), ops[1..], name, success);
    }
  }

  lemma {:induction false} TakeOne(threads: seq<seq<Op>>, i: nat, name: string, success: bool)
    requires i < |threads| && threads[i] != []
    ensures AllRecorded(threads, name, success)
         == RecordsOf([threads[i][0]], name, success) + AllRecorded(threads[i := threads[i][1..]], name, success)
  {
    var next := threads[i := threads[i][1..]];
    assert RecordsOf([threads[i][0]][1..], name, success) == 0;
    if i == 0 {
      assert next[1..] == threads[1..];
    } else {
      TakeOne(threads[1..], i - 1, name, success);
      assert next[1..] == threads[1..][i - 1 := threads[i][1..]];
    }
  }

  lemma {:induction false} Idle(threads: seq<seq<Op>>, name: string, success: bool)
    requires forall i :: 0 <= i < |threads| ==> threads[i] == []
    ensures AllRecorded(threads, name, success) == 0
  {
    if threads != [] {
      Idle(threads[1..], name, success);
    }
  }

  lemma {:induction false} SameRecords(threads: seq<seq<Op>>, order: seq<Op>, name: string, success: bool)
    requires Interleaving(threads, order)
    requires forall i, j :: 0 <= i < |threads| && 0 <= j < |threads[i]| ==> Keeps(threads[i][j], name)
    ensures RecordsOf(order, name, success) == AllRecorded(threads, name, success)
    ensures forall k :: 0 <= k < |order| ==> Keeps(order[k], name)
    decreases |order|
  {
    if order == [] {
      Idle(threads, name, success);
    } else {
      var i :| 0 <= i < |threads| && threads[i] != [] && threads[i][0] == order[0]
            && Interleaving(threads[i := threads[i][1..]], order[1..]);
      var next := threads[i := threads[i][1..]];
      forall k, j | 0 <= k < |next| && 0 <= j < |next[k]|
        ensures Keeps(next[k][j], name)
      {
        assert next[k][j] == if k == i then threads[i][j + 1] else threads[k][j];
      }
      SameRecords(next, order[1..], name, success);
      TakeOne(threads, i, name, success);
      assert RecordsOf([order[0]][1..], name, success) == 0;
      assert forall k :: 0 < k < |order| ==> order[k] == order[1..][k - 1];
    }
  }

  /** No lost updates: however the threads come by the lock, a counter grows by the number of
      results that all of them recorded. */
  lemma NoLostUpdates(s: Settings, f: File, threads: seq<seq<Op>>, order: seq<Op>, name: string, success: bool)
    requires ValidSettings(s) && ReadableCounters(f, name) && Interleaving(threads, order)
    requires forall i, j :: 0 <= i < |threads| && 0 <= j < |threads[i]| ==> Keeps(threads[i][j], name)
    ensures ReadableCounters(ApplyAll(s, f, order), name)
    ensures Counter(ApplyAll(s, f, order)[IndexerSection(name)], success).value
         == Counter(f[IndexerSection(name)], success).value + AllRecorded(threads, name, success)
  {
    SameRecords(threads, order, name, success);
    RunCounts(s, f, order, name, success);
  }
}
