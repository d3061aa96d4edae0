/** The settings file: flat settings, the indexers with their counters, and the manager
    whose every method loads the file, changes what it loaded and saves it, under one lock. */
module IniStore {
  import opened Results
  import opened Decimals
  import Texts = Text

  type Section = map<string, string>
  type File = map<string, Section>

  /** Where a setting is kept and what it is when it is not. */
  datatype Definition = Definition(section: string, iniKey: string, default: string, secret: bool)

  /** The setting definitions, in order. */
  datatype Settings = Settings(order: seq<string>, defs: map<string, Definition>)

  const INDEXER_PREFIX := "indexer:"

  predicate IsIndexerSection(section: string) {
    INDEXER_PREFIX <= section
  }

  function IndexerSection(name: string): string {
    INDEXER_PREFIX + name
  }

  lemma SectionsDiffer(a: string, b: string)
    ensures IndexerSection(a) == "indexer:" + a
    ensures IndexerSection(a) == IndexerSection(b) <==> a == b
  {
    assert IndexerSection(a)[|INDEXER_PREFIX|..] == a && IndexerSection(b)[|INDEXER_PREFIX|..] == b;
  }

  const IS_SET := "_is_set"

  /** Each key once, each at a place of its own, none in an indexer's section, and none that
      reads as the "is set" mark of a setting. */
  predicate ValidSettings(s: Settings) {
    && (set k | k in s.order) == s.defs.Keys
    && (forall i, j :: 0 <= i < j < |s.order| ==> s.order[i] != s.order[j])
    && (forall k :: k in s.defs ==> !IsIndexerSection(s.defs[k].section))
    && (forall k :: k in s.defs ==> k + IS_SET !in s.defs)
    && (forall k, l :: k in s.defs && l in s.defs && k != l ==>
          s.defs[k].section != s.defs[l].section || s.defs[k].iniKey != s.defs[l].iniKey)
  }

  // ----- flat settings -----

  predicate HasOption(f: File, section: string, option: string) {
    section in f && option in f[section]
  }

  function SetOption(f: File, section: string, option: string, value: string): File {
    f[section := (if section in f then f[section] else map[])[option := value]]
  }

  function Effective(f: File, d: Definition): string {
    if HasOption(f, d.section, d.iniKey) then f[d.section][d.iniKey] else d.default
  }

  function GetSetting(s: Settings, f: File, key: string): Option<string> {
    if key in s.defs then Some(Effective(f, s.defs[key])) else None
  }

  const MASK := "****"

  function MaskSecret(value: string): string {
    if value == "" then "" else if |value| > 4 then MASK + value[|value| - 4..] else MASK
  }

  function Shown(f: File, d: Definition): string {
    if d.secret && Effective(f, d) != "" then MaskSecret(Effective(f, d)) else Effective(f, d)
  }

  /** What an export shows of a value: a secret that is set shows four stars, and behind them nothing or its
      last four characters if it has more than four; anything else is shown as it is. */
  predicate IsShown(secret: bool, value: string, shown: string) {
    if !secret || value == "" then shown == value
    else if |value| <= 4 then shown == "****"
    else |shown| == 8 && shown[..4] == "****" && shown[4..] == value[|value| - 4..]
  }

  lemma ShownMeans(f: File, d: Definition, shown: string)
    ensures IsShown(d.secret, Effective(f, d), shown) <==> shown == Shown(f, d)
  {
    var v := Effective(f, d);
    if d.secret && |v| > 4 {
      assert (MASK + v[|v| - 4..])[..4] == "****" && (MASK + v[|v| - 4..])[4..] == v[|v| - 4..];
      assert |shown| == 8 ==> shown == shown[..4] + shown[4..];
    }
  }

  /** A value of an exported snapshot. */
  datatype Value = Text(text: string) | Truth(b: bool) | Null

  datatype Entry = Entry(key: string, value: Value)

  predicate Defined(s: Settings, keys: seq<string>) {
    forall i :: 0 <= i < |keys| ==> keys[i] in s.defs
  }

  lemma OrderIsDefined(s: Settings)
    requires ValidSettings(s)
    ensures Defined(s, s.order)
  {
    assert forall k :: k in s.order <==> k in (set k' | k' in s.order);
  }

  function ExportFrom(s: Settings, f: File, keys: seq<string>): seq<Entry>
    requires Defined(s, keys)
  {
    if keys == [] then []
    else
      var d := s.defs[keys[0]];
      [Entry(keys[0], Text(Shown(f, d))), Entry(keys[0] + IS_SET, Truth(Effective(f, d) != ""))]
      + ExportFrom(s, f, keys[1..])
  }

  /** What is exported from the i-th key on. */
  ghost function ExportRest(s: Settings, f: File, keys: seq<string>, i: nat): seq<Entry>
    requires Defined(s, keys) && i <= |keys|
  {
    ExportFrom(s, f, keys[i..])
  }

  lemma ExportEnds(s: Settings, f: File, keys: seq<string>)
    requires Defined(s, keys)
    ensures [] + ExportRest(s, f, keys, 0) == ExportFrom(s, f, keys)
    ensures forall out: seq<Entry> :: out + ExportRest(s, f, keys, |keys|) == out
  {
    assert keys[0..] == keys && keys[|keys|..] == [];
  }

  /** The entries of the i-th setting. */
  lemma {:induction false} ExportAt(s: Settings, f: File, keys: seq<string>, i: nat)
    requires Defined(s, keys) && i < |keys|
    ensures |ExportFrom(s, f, keys)| == 2 * |keys|
    ensures var d := s.defs[keys[i]];
            && ExportFrom(s, f, keys)[2 * i] == Entry(keys[i], Text(Shown(f, d)))
            && ExportFrom(s, f, keys)[2 * i + 1] == Entry(keys[i] + IS_SET, Truth(Effective(f, d) != ""))
    decreases |keys|
  {
    hide Shown, Effective;
    if |keys| > 1 {
      ExportAt(s, f, keys[1..], if i == 0 then 0 else i - 1);
    }
  }

  /** What an export holds of each setting, read from the file itself. */
  predicate Exports(s: Settings, f: File, keys: seq<string>, output: seq<Entry>)
    requires Defined(s, keys)
  {
    && |output| == 2 * |keys|
    && forall i :: 0 <= i < |keys| ==>
         var d := s.defs[keys[i]];
         var value := if d.section in f && d.iniKey in f[d.section] then f[d.section][d.iniKey] else d.default;
         && output[2 * i].key == keys[i]
         && output[2 * i].value.Text?
         && IsShown(d.secret, value, output[2 * i].value.text)
         && output[2 * i + 1] == Entry(keys[i] + "_is_set", Truth(value != ""))
  }

  lemma ExportIsExport(s: Settings, f: File, keys: seq<string>)
    requires Defined(s, keys)
    ensures Exports(s, f, keys, ExportFrom(s, f, keys))
  {
    forall i | 0 <= i < |keys|
      ensures var d := s.defs[keys[i]];
              && |ExportFrom(s, f, keys)| == 2 * |keys|
              && ExportFrom(s, f, keys)[2 * i] == Entry(keys[i], Text(Shown(f, d)))
              && ExportFrom(s, f, keys)[2 * i + 1] == Entry(keys[i] + IS_SET, Truth(Effective(f, d) != ""))
              && IsShown(d.secret, Effective(f, d), Shown(f, d))
    {
      var d := s.defs[keys[i]];
      ExportAt(s, f, keys, i);
      ShownMeans(f, d, Shown(f, d));
    }
    hide IsShown, ExportFrom, Shown;
  }

  lemma WhatIsShown(f: File, d: Definition)
    ensures var v := if d.section in f && d.iniKey in f[d.section] then f[d.section][d.iniKey] else d.default;
            Effective(f, d) == v && Shown(f, d) == if d.secret && v != "" then MaskSecret(v) else v
  {
  }

  lemma ExportMore(s: Settings, f: File, keys: seq<string>, i: nat, before: seq<Entry>, two: seq<Entry>)
    requires Defined(s, keys) && i < |keys|
    requires two == [Entry(keys[i], Text(Shown(f, s.defs[keys[i]]))),
                     Entry(keys[i] + IS_SET, Truth(Effective(f, s.defs[keys[i]]) != ""))]
    ensures (before + two) + ExportRest(s, f, keys, i + 1) == before + ExportRest(s, f, keys, i)
  {
    assert keys[i..][1..] == keys[i + 1..] && keys[i..] != [];
    assert ExportRest(s, f, keys, i) == two + ExportRest(s, f, keys, i + 1);
    hide *;
    assert (before + two) + ExportRest(s, f, keys, i + 1) == before + (two + ExportRest(s, f, keys, i + 1));
  }

  function AsText(v: Value): string {
    match v
    case Text(t) => t
    case Truth(b) => if b then "True" else "False"
    case Null => ""
  }

  predicate Accepted(s: Settings, e: Entry) {
    e.key in s.defs && !(MASK <= AsText(e.value))
  }

  function ImportOne(s: Settings, f: File, e: Entry): File {
    if Accepted(s, e) then SetOption(f, s.defs[e.key].section, s.defs[e.key].iniKey, AsText(e.value)) else f
  }

  function ImportAll(s: Settings, f: File, entries: seq<Entry>): File
    decreases |entries|
  {
    if entries == [] then f else ImportAll(s, ImportOne(s, f, entries[0]), entries[1..])
  }

  // ----- indexers -----

  const FIELDS := {"url", "api_key", "categories", "type", "enabled", "priority"}

  const SUCCESS_COUNT := "success_count"
  const FAILURE_COUNT := "failure_count"

  function CounterKey(success: bool): string {
    if success then SUCCESS_COUNT else FAILURE_COUNT
  }

  const LAST_SUCCESS := "last_success_at"
  const LAST_FAILURE := "last_failure_at"
  const LAST_RESPONSE := "last_response_ms"

  function LastKey(success: bool): string {
    if success then LAST_SUCCESS else LAST_FAILURE
  }

  function GetText(sec: Section, key: string): Option<string> {
    if key in sec then Some(sec[key]) else None
  }

  /** A stored integer: zero when absent; text that is no integer cannot be read. */
  function GetInt(sec: Section, key: string): Option<int> {
    if key in sec then ParseInt(sec[key]) else Some(0)
  }

  function Counter(sec: Section, success: bool): Option<int> {
    GetInt(sec, CounterKey(success))
  }

  function StoredCounter(f: File, name: string, success: bool): Option<int> {
    if IndexerSection(name) in f then Counter(f[IndexerSection(name)], success) else Some(0)
  }

  function Recorded(sec: Section, success: bool, count: int, millis: int, now: string): Section {
    sec[CounterKey(success) := PrintInt(count)][LastKey(success) := now][LAST_RESPONSE := PrintInt(millis)]
  }

  datatype Stats = Stats(
    successes: int, failures: int, lastSuccess: Option<string>, lastFailure: Option<string>, lastResponse: int)

  const NO_STATS := Stats(0, 0, None, None, 0)

  /** The statistics of a section; they raise when one of their numbers cannot be read. */
  function StatsOf(sec: Section): Result<Stats> {
    var s, f, ms := Counter(sec, true), Counter(sec, false), GetInt(sec, LAST_RESPONSE);
    if s.None? || f.None? || ms.None? then Failure("ValueError")
    else Success(Stats(s.value, f.value, GetText(sec, LAST_SUCCESS), GetText(sec, LAST_FAILURE), ms.value))
  }

  function StoredStats(f: File, name: string): Result<Stats> {
    if IndexerSection(name) in f then StatsOf(f[IndexerSection(name)]) else Success(NO_STATS)
  }

  datatype IndexerFields = IndexerFields(
    url: string, apiKey: string, enabled: string, priority: string, categories: string, kind: string)

  function NewSection(x: IndexerFields): Section {
    map["url" := x.url, "api_key" := x.apiKey, "enabled" := x.enabled,
        "priority" := x.priority, "categories" := x.categories, "type" := x.kind]
  }

  datatype Indexer = Indexer(
    name: string, url: string, apiKey: string, enabled: bool, priority: int, categories: string, kind: string)

  const TRUE_TEXTS := {"1", "yes", "true", "on"}
  const FALSE_TEXTS := {"0", "no", "false", "off"}
  const DEFAULT_CATEGORIES := "4000,4010,4020,4030,4040,4050,4060,4070"

  function TextOr(sec: Section, key: string, fallback: string): string {
    if key in sec then sec[key] else fallback
  }

  /** A section read back as an indexer; it raises when the priority or the switch cannot be read. */
  function ParseIndexer(name: string, sec: Section): Result<Indexer> {
    var enabled, priority := Texts.Lower(TextOr(sec, "enabled", "true")), GetInt(sec, "priority");
    if priority.None? || enabled !in TRUE_TEXTS + FALSE_TEXTS then Failure("ValueError")
    else
      Success(Indexer(name, TextOr(sec, "url", ""), TextOr(sec, "api_key", ""), enabled in TRUE_TEXTS, priority.value,
                      TextOr(sec, "categories", DEFAULT_CATEGORIES), TextOr(sec, "type", "newznab")))
  }

  /** A field update; fields that the manager does not know are passed over. */
  datatype Change = Change(field: string, value: string)

  function Changed(sec: Section, changes: seq<Change>): Section
    decreases |changes|
  {
    if changes == [] then sec
    else Changed(if changes[0].field in FIELDS then sec[changes[0].field := changes[0].value] else sec, changes[1..])
  }

  datatype Op =
    | SetValue(key: string, value: string)
    | Create(name: string, fields: IndexerFields)
    | Update(name: string, changes: seq<Change>, newName: Option<string>)
    | Remove(name: string)
    | Record(name: string, success: bool, millis: int, now: string)

  predicate Renames(op: Op)
    requires op.Update?
  {
    op.newName.Some? && op.newName.value != "" && op.newName.value != op.name
  }

  /** The name that the update asks for belongs to another indexer. */
  predicate NameTaken(f: File, op: Op)
    requires op.Update?
  {
    IndexerSection(op.name) in f && Renames(op) && IndexerSection(op.newName.value) in f
  }

  /** What one whole critical section leaves in the file; one that raises leaves it as it was. */
  function Apply(s: Settings, f: File, op: Op): File {
    match op
    case SetValue(key, value) =>
      if key in s.defs then SetOption(f, s.defs[key].section, s.defs[key].iniKey, value) else f
    case Create(name, fields) =>
      if IndexerSection(name) in f then f else f[IndexerSection(name) := NewSection(fields)]
    case Update(name, changes, newName) =>
      var section := IndexerSection(name);
      if section !in f then f
      else
        var sec := Changed(f[section], changes);
        if !Renames(op) then f[section := sec]
        else if IndexerSection(newName.value) in f then f
        else (f - {section})[IndexerSection(newName.value) := sec]
    case Remove(name) =>
      f - {IndexerSection(name)}
    case Record(name, success, millis, now) =>
      var section := IndexerSection(name);
      if section !in f then f
      else
        match Counter(f[section], success)
        case None => f
        case Some(n) => f[section := Recorded(f[section], success, n + 1, millis, now)]
  }

  function ApplyAll(s: Settings, f: File, ops: seq<Op>): File
    decreases |ops|
  {
    if ops == [] then f else ApplyAll(s, Apply(s, f, ops[0]), ops[1..])
  }

  /** The entries that an import sets. */
  function Taken(s: Settings, entries: seq<Entry>): seq<Entry> {
    if entries == [] then []
    else (if Accepted(s, entries[0]) then [entries[0]] else []) + Taken(s, entries[1..])
  }

  class IniSettingsManager {
    const settings: Settings
    var file: File

    constructor (settings: Settings, file: File)
      ensures this.settings == settings && this.file == file
    {
      this.settings := settings;
      this.file := file;
    }

    method Get(key: string) returns (value: Option<string>)
      ensures value == GetSetting(settings, file, key)
      ensures value == if key !in settings.defs then None
                       else
                         var d := settings.defs[key];
                         Some(if d.section in file && d.iniKey in file[d.section] then file[d.section][d.iniKey]
                              else d.default)
    {
      if key !in settings.defs {
        return None;
      }
      var defn := settings.defs[key];
      var config := file;
      if HasOption(config, defn.section, defn.iniKey) {
        return Some(config[defn.section][defn.iniKey]);
      }
      value := Some(defn.default);
    }

    method Set(key: string, value: string) returns (r: Result<()>)
      modifies this`file
      ensures r.Success? <==> key in settings.defs
      ensures file == Apply(settings, old(file), SetValue(key, value))
    {
      if key !in settings.defs {
        return Failure("Unknown setting key");
      }
      var defn := settings.defs[key];
      var config := file;
      if defn.section !in config {
        config := config[defn.section := map[]];
      }
      config := config[defn.section := config[defn.section][defn.iniKey := value]];
      file := config;
      r := Success(());
    }

    /** All settings with secrets masked, each followed by its "is set" mark. */
    method GetAllMasked() returns (output: seq<Entry>)
      requires ValidSettings(settings)
      ensures Defined(settings, settings.order) && output == ExportFrom(settings, file, settings.order)
      ensures Exports(settings, file, settings.order, output)
    {
      OrderIsDefined(settings);
      output := [];
      var config, order := file, settings.order;
      ExportEnds(settings, config, order);
      assert forall i :: 0 <= i < |order| ==> order[i] in settings.defs;
      hide *;
      for i := 0 to |order|
        invariant output + ExportRest(settings, config, order, i) == ExportFrom(settings, config, order)
      {
        var key := order[i];
        var defn := settings.defs[key];
        var stored := defn.section in config && defn.iniKey in config[defn.section];
        var value := if stored then config[defn.section][defn.iniKey] else defn.default;
        var shown := if defn.secret && value != "" then MaskSecret(value) else value;
        WhatIsShown(config, defn);
        var two := [Entry(key, Text(shown)), Entry(key + IS_SET, Truth(value != ""))];
        ExportMore(settings, config, order, i, output, two);
        output := output + two;
      }
      ExportIsExport(settings, config, order);
    }

    /** Imports a snapshot: unknown keys and masked values are skipped, the rest are set. */
    method ImportConfig(entries: seq<Entry>) returns (applied: nat, skipped: nat)
      modifies this`file
      ensures file == ImportAll(settings, old(file), entries)
      ensures applied + skipped == |entries|
      ensures applied == |Taken(settings, entries)|
    {
      applied, skipped := 0, 0;
      assert entries[0..] == entries;
      for i := 0 to |entries|
        invariant ImportAll(settings, file, entries[i..]) == ImportAll(settings, old(file), entries)
        invariant applied + skipped == i
        invariant applied + |Taken(settings, entries[i..])| == |Taken(settings, entries)|
      {
        assert entries[i..][1..] == entries[i + 1..];
        var key := entries[i].key;
        if key !in settings.defs {
          skipped := skipped + 1;
          continue;
        }
        var strValue := AsText(entries[i].value);
        if MASK <= strValue {
          skipped := skipped + 1;
          continue;
        }
        var r := Set(key, strValue);
        applied := applied + 1;
      }
    }

    method CreateIndexer(name: string, fields: IndexerFields) returns (r: Result<()>)
      modifies this`file
      ensures r.Success? <==> IndexerSection(name) !in old(file)
      ensures file == Apply(settings, old(file), Create(name, fields))
    {
      var section := IndexerSection(name);
      var config := file;
      if section in config {
        return Failure("Indexer already exists");
      }
      config := config[section := NewSection(fields)];
      file := config;
      r := Success(());
    }

    /** Updates fields and possibly the name. The field updates are made on the loaded copy, so
        when the new name is taken nothing of them is stored. Reading the saved section back can still
        raise, and then the update is stored all the same. */
    method UpdateIndexer(name: string, changes: seq<Change>, newName: Option<string>)
      returns (r: Result<Option<Indexer>>)
      modifies this`file
      ensures file == Apply(settings, old(file), Update(name, changes, newName))
      ensures r == Success(None) <==> IndexerSection(name) !in old(file)
      ensures NameTaken(old(file), Update(name, changes, newName)) ==> r.Failure? && file == old(file)
      ensures IndexerSection(name) in old(file) && !NameTaken(old(file), Update(name, changes, newName)) ==>
        var renamed := if Renames(Update(name, changes, newName)) then newName.value else name;
        match ParseIndexer(renamed, Changed(old(file)[IndexerSection(name)], changes))
        case Success(indexer) => r == Success(Some(indexer))
        case Failure(e) => r == Failure(e)
    {
      var section := IndexerSection(name);
      var config := file;
      if section !in config {
        return Success(None);
      }
      assert changes[0..] == changes;
      for i := 0 to |changes|
        invariant section in config && config == file[section := config[section]]
        invariant Changed(config[section], changes[i..]) == Changed(file[section], changes)
      {
        assert changes[i..][1..] == changes[i + 1..];
        if changes[i].field in FIELDS {
          config := config[section := config[section][changes[i].field := changes[i].value]];
        }
      }
      assert changes[|changes|..] == [];
      if newName.Some? && newName.value != "" && newName.value != name {
        var newSection := IndexerSection(newName.value);
        SectionsDiffer(name, newName.value);
        if newSection in config {
          return Failure("Indexer already exists");
        }
        config := config[newSection := config[section]];
        config := config - {section};
        section := newSection;
      }
      file := config;
      var parsed := ParseIndexer(section[|INDEXER_PREFIX|..], config[section]);
      if parsed.Failure? {
        return Failure(parsed.error);
      }
      r := Success(Some(parsed.value));
    }

    method DeleteIndexer(name: string) returns (deleted: bool)
      modifies this`file
      ensures deleted <==> IndexerSection(name) in old(file)
      ensures file == Apply(settings, old(file), Remove(name))
    {
      var section := IndexerSection(name);
      var config := file;
      if section !in config {
        assert config - {section} == config;
        return false;
      }
      config := config - {section};
      file := config;
      deleted := true;
    }

    /** Counts one query result; an unknown indexer is passed over, an unreadable counter raises. */
    method RecordIndexerResult(name: string, success: bool, millis: int, now: string) returns (r: Result<()>)
      modifies this`file
      ensures file == Apply(settings, old(file), Record(name, success, millis, now))
      ensures r.Failure? <==>
                IndexerSection(name) in old(file) && Counter(old(file)[IndexerSection(name)], success) == None
    {
      var section := IndexerSection(name);
      var config := file;
      if section !in config {
        return Success(());
      }
      var current := Counter(config[section], success);
      if current.None? {
        return Failure("ValueError");
      }
      config := config[section := Recorded(config[section], success, current.value + 1, millis, now)];
      file := config;
      r := Success(());
    }

    /** The statistics of an indexer: nothing counted for an unknown one. */
    method GetIndexerStats(name: string) returns (r: Result<Stats>)
      ensures r == StoredStats(file, name)
    {
      var section := IndexerSection(name);
      var config := file;
      if section !in config {
        return Success(NO_STATS);
      }
      var successes, failures := Counter(config[section], true), Counter(config[section], false);
      var millis := GetInt(config[section], LAST_RESPONSE);
      if successes.None? || failures.None? || millis.None? {
        return Failure("ValueError");
      }
      r := Success(Stats(successes.value, failures.value, GetText(config[section], LAST_SUCCESS),
                         GetText(config[section], LAST_FAILURE), millis.value));
    }
  }
}
