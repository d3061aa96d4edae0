/** What settings survive an export from one file and an import into another. */
module SettingsExchange {
  import opened Results
  import opened IniStore

  /** A write is read back under its own key and under no other. */
  lemma GetAfterSet(s: Settings, f: File, key: string, value: string, other: string)
    requires ValidSettings(s) && key in s.defs && other in s.defs
    ensures GetSetting(s, Apply(s, f, SetValue(key, value)), other)
         == if other == key then Some(value) else GetSetting(s, f, other)
  {
    var d, e := s.defs[key], s.defs[other];
    if other != key && d.section == e.section {
      assert d.iniKey != e.iniKey;
    }
  }

  /** The text that importing `entries` leaves for `key`: the last accepted entry's. */
  function LastFor(s: Settings, entries: seq<Entry>, key: string): Option<string>
    decreases |entries|
  {
    if entries == [] then None
    else
      var later := LastFor(s, entries[1..], key);
      if later.Some? then later
      else if entries[0].key == key && Accepted(s, entries[0]) then Some(AsText(entries[0].value))
      else None
  }

  /** After an import every setting holds its last accepted text, or what it held before. */
  lemma {:induction false} ImportedValue(s: Settings, f: File, entries: seq<Entry>, key: string)
    requires ValidSettings(s) && key in s.defs
    ensures GetSetting(s, ImportAll(s, f, entries), key)
         == (match LastFor(s, entries, key) case Some(text) => Some(text) case None => GetSetting(s, f, key))
    decreases |entries|
  {
    if entries != [] {
      var e := entries[0];
      ImportedValue(s, ImportOne(s, f, e), entries[1..], key);
      ImportOneValue(s, f, e, key);
    }
  }

  lemma ImportOneValue(s: Settings, f: File, e: Entry, key: string)
    requires ValidSettings(s) && key in s.defs
    ensures GetSetting(s, ImportOne(s, f, e), key)
         == if e.key == key && Accepted(s, e) then Some(AsText(e.value)) else GetSetting(s, f, key)
  {
    if Accepted(s, e) {
      GetAfterSet(s, f, e.key, AsText(e.value), key);
    }
  }

  /** Whether a value is exported as a mask, so that an import passes it over. */
  predicate Masked(f: File, d: Definition) {
    MASK <= Shown(f, d)
  }

  lemma UnmaskedIsPlain(f: File, d: Definition)
    ensures !Masked(f, d) ==> Shown(f, d) == Effective(f, d)
  {
    var v := Effective(f, d);
    if d.secret && v != "" {
      assert MASK <= MaskSecret(v);
    }
  }

  lemma LastOfTwo(s: Settings, value: Entry, mark: Entry, rest: seq<Entry>, key: string)
    requires !Accepted(s, mark)
    ensures LastFor(s, [value, mark] + rest, key)
         == if LastFor(s, rest, key).Some? then LastFor(s, rest, key)
            else if value.key == key && Accepted(s, value) then Some(AsText(value.value)) else None
  {
    hide Accepted, AsText;
    var all := [value, mark] + rest;
    assert all[1..] == [mark] + rest && all[1..][1..] == rest;
    assert LastFor(s, all[1..], key) == LastFor(s, rest, key);
  }

  lemma {:induction false} ExportedFor(s: Settings, f: File, keys: seq<string>, key: string)
    requires ValidSettings(s) && Defined(s, keys) && key in s.defs
    requires forall i, j :: 0 <= i < j < |keys| ==> keys[i] != keys[j]
    ensures LastFor(s, ExportFrom(s, f, keys), key)
         == if key in keys && !Masked(f, s.defs[key]) then Some(Effective(f, s.defs[key])) else None
    decreases |keys|
  {
    if keys != [] {
      var k := keys[0];
      var d := s.defs[k];
      var value, mark := Entry(k, Text(Shown(f, d))), Entry(k + IS_SET, Truth(Effective(f, d) != ""));
      ExportedFor(s, f, keys[1..], key);
      UnmaskedIsPlain(f, d);
      assert !Accepted(s, mark) && (Accepted(s, value) <==> !Masked(f, d));
      assert ExportFrom(s, f, keys) == [value, mark] + ExportFrom(s, f, keys[1..]);
      hide ExportFrom, LastFor, Accepted, Masked, Shown, Effective, ValidSettings, Defined;
      LastOfTwo(s, value, mark, ExportFrom(s, f, keys[1..]), key);
      assert key in keys <==> key == k || key in keys[1..];
    }
  }

  /** Importing A's export into B gives B A's value of every setting that was not exported as a
      mask, and leaves B its own value of the others. */
  lemma ImportOfExport(s: Settings, a: File, b: File, key: string)
    requires ValidSettings(s) && Defined(s, s.order) && key in s.defs
    ensures GetSetting(s, ImportAll(s, b, ExportFrom(s, a, s.order)), key)
         == if Masked(a, s.defs[key]) then GetSetting(s, b, key) else GetSetting(s, a, key)
  {
    assert key in s.order by {
      assert key in (set k | k in s.order);
    }
    ImportedValue(s, b, ExportFrom(s, a, s.order), key);
    ExportedFor(s, a, s.order, key);
  }

  /** A file that takes in its own export keeps every effective setting. */
  lemma ReimportKeepsSettings(s: Settings, f: File, key: string)
    requires ValidSettings(s) && Defined(s, s.order)
    ensures GetSetting(s, ImportAll(s, f, ExportFrom(s, f, s.order)), key) == GetSetting(s, f, key)
  {
    if key in s.defs {
      ImportOfExport(s, f, f, key);
    }
  }

  // ----- what an export discloses -----

  /** Two values of a secret that an export cannot tell apart: both empty, both short, or both longer
      with the same last four characters. */
  predicate SameOutside(v: string, w: string) {
    || v == w == ""
    || (1 <= |v| <= 4 && 1 <= |w| <= 4)
    || (|v| > 4 && |w| > 4 && v[|v| - 4..] == w[|w| - 4..])
  }

  predicate SameExported(f: File, g: File, d: Definition) {
    if d.secret then SameOutside(Effective(f, d), Effective(g, d)) else Effective(f, d) == Effective(g, d)
  }

  lemma SameShown(f: File, g: File, d: Definition)
    ensures SameExported(f, g, d) <==> Shown(f, d) == Shown(g, d)
    ensures SameExported(f, g, d) ==> (Effective(f, d) == "" <==> Effective(g, d) == "")
  {
    ShownMeans(f, d, Shown(f, d));
    ShownMeans(g, d, Shown(g, d));
    var v, w := Effective(f, d), Effective(g, d);
    hide Effective, Shown;
    if d.secret && |v| > 4 && |w| > 4 {
      assert Shown(f, d) == Shown(f, d)[..4] + Shown(f, d)[4..];
      assert Shown(g, d) == Shown(g, d)[..4] + Shown(g, d)[4..];
    }
  }

  /** Two files export the same exactly if they agree on every setting that is no secret, and each
      secret is empty in both, short in both, or ends in the same four characters. */
  lemma ExportDiscloses(s: Settings, f: File, g: File)
    requires ValidSettings(s) && Defined(s, s.order)
    ensures ExportFrom(s, f, s.order) == ExportFrom(s, g, s.order)
       <==> forall i :: 0 <= i < |s.order| ==> SameExported(f, g, s.defs[s.order[i]])
  {
    hide ValidSettings;
    SameExports(s, f, g, s.order);
  }

  lemma {:induction false} SameExports(s: Settings, f: File, g: File, keys: seq<string>)
    requires Defined(s, keys)
    ensures ExportFrom(s, f, keys) == ExportFrom(s, g, keys)
       <==> forall i :: 0 <= i < |keys| ==> SameExported(f, g, s.defs[keys[i]])
    decreases |keys|
  {
    if keys != [] {
      var d := s.defs[keys[0]];
      SameShown(f, g, d);
      SameExports(s, f, g, keys[1..]);
      ExportCons(s, f, keys);
      ExportCons(s, g, keys);
      hide ExportFrom, SameExported, Shown, Effective;
      assert forall i :: 0 < i < |keys| ==> keys[i] == keys[1..][i - 1];
    }
  }

  lemma ExportCons(s: Settings, f: File, keys: seq<string>)
    requires keys != [] && Defined(s, keys)
    ensures var d, all := s.defs[keys[0]], ExportFrom(s, f, keys);
            && |all| >= 2
            && all[0] == Entry(keys[0], Text(Shown(f, d)))
            && all[1] == Entry(keys[0] + IS_SET, Truth(Effective(f, d) != ""))
            && all[2..] == ExportFrom(s, f, keys[1..])
            && all == [all[0], all[1]] + all[2..]
  {
    hide Shown, Effective;
  }

  /** A text with fewer stars in front is set for its key; anything else is passed over. */
  lemma ImportTakes(s: Settings, f: File, e: Entry)
    requires ValidSettings(s)
    ensures var text := match e.value
                        case Text(t) => t
                        case Truth(b) => if b then "True" else "False"
                        case Null => "";
            ImportOne(s, f, e)
            == if e.key in s.defs && !(|text| >= 4 && text[..4] == "****") then Apply(s, f, SetValue(e.key, text))
               else f
  {
  }

  /** The settings whose value is exported in the clear. */
  function Clear(s: Settings, f: File, keys: seq<string>): nat
    requires Defined(s, keys)
  {
    if keys == [] then 0 else (if Masked(f, s.defs[keys[0]]) then 0 else 1) + Clear(s, f, keys[1..])
  }

  /** An import of an export applies one entry for each setting in the clear, of two exported for every setting. */
  lemma {:induction false} AppliedOfExport(s: Settings, f: File, keys: seq<string>)
    requires ValidSettings(s) && Defined(s, keys)
    ensures |ExportFrom(s, f, keys)| == 2 * |keys|
    ensures |Taken(s, ExportFrom(s, f, keys))| == Clear(s, f, keys)
    decreases |keys|
  {
    if keys != [] {
      var d := s.defs[keys[0]];
      var value := Entry(keys[0], Text(Shown(f, d)));
      var mark := Entry(keys[0] + IS_SET, Truth(Effective(f, d) != ""));
      AppliedOfExport(s, f, keys[1..]);
      assert !Accepted(s, mark) && (Accepted(s, value) <==> !Masked(f, d));
      assert ExportFrom(s, f, keys) == [value, mark] + ExportFrom(s, f, keys[1..]);
      TakenOfTwo(s, value, mark, ExportFrom(s, f, keys[1..]));
      hide Accepted, ExportFrom, Masked, Taken;
    }
  }

  lemma TakenOfTwo(s: Settings, first: Entry, second: Entry, rest: seq<Entry>)
    ensures |Taken(s, [first, second] + rest)|
         == (if Accepted(s, first) then 1 else 0) + (if Accepted(s, second) then 1 else 0) + |Taken(s, rest)|
  {
    hide Accepted;
    var all := [first, second] + rest;
    assert all[1..] == [second] + rest && all[1..][1..] == rest;
  }

  /** The sections an operation may change. */
  function Footprint(s: Settings, op: Op): set<string> {
    match op
    case SetValue(key, _) => if key in s.defs then {s.defs[key].section} else {}
    case Update(name, _, newName) =>
      {IndexerSection(name)} + if newName.Some? then {IndexerSection(newName.value)} else {}
    case _ => {IndexerSection(op.name)}
  }

  /** Every other section stays as it was: its presence and its contents. */
  lemma OthersUnchanged(s: Settings, f: File, op: Op, section: string)
    requires section !in Footprint(s, op)
    ensures section in Apply(s, f, op) <==> section in f
    ensures section in f ==> Apply(s, f, op)[section] == f[section]
  {
    match op
    case SetValue(_, _) =>
    case Create(_, _) =>
    case Update(_, _, _) =>
    case Remove(_) =>
    case Record(_, _, _, _) =>
  }

  /** An import changes no indexer. */
  lemma {:induction false} ImportKeepsIndexers(s: Settings, f: File, entries: seq<Entry>, name: string)
    requires ValidSettings(s)
    ensures IndexerSection(name) in ImportAll(s, f, entries) <==> IndexerSection(name) in f
    ensures IndexerSection(name) in f ==> ImportAll(s, f, entries)[IndexerSection(name)] == f[IndexerSection(name)]
    decreases |entries|
  {
    if entries != [] {
      var e := entries[0];
      assert IsIndexerSection(IndexerSection(name));
      if Accepted(s, e) {
        OthersUnchanged(s, f, SetValue(e.key, AsText(e.value)), IndexerSection(name));
      }
      ImportKeepsIndexers(s, ImportOne(s, f, e), entries[1..], name);
    }
  }
}
