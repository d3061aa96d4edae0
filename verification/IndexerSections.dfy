/** How the fields of an indexer and its statistics are kept in its section, key by key. */
module IndexerSections {
  import opened Results
  import opened Decimals
  import opened IniStore
  import Texts = Text

  predicate IsOn(text: string) {
    || Texts.SameText(text, "1") || Texts.SameText(text, "yes")
    || Texts.SameText(text, "true") || Texts.SameText(text, "on")
  }

  predicate IsOff(text: string) {
    || Texts.SameText(text, "0") || Texts.SameText(text, "no")
    || Texts.SameText(text, "false") || Texts.SameText(text, "off")
  }

  lemma PlainWords()
    ensures forall w :: w in TRUE_TEXTS + FALSE_TEXTS ==> Texts.Lower(w) == w
  {
  }

  /** A switch is read in any case. */
  lemma SwitchMeans(text: string)
    ensures Texts.Lower(text) in TRUE_TEXTS <==> IsOn(text)
    ensures Texts.Lower(text) in FALSE_TEXTS <==> IsOff(text)
  {
    PlainWords();
    hide Texts.Lower, Texts.SameText;
    forall w
      ensures w in TRUE_TEXTS + FALSE_TEXTS ==> (Texts.SameText(text, w) <==> Texts.Lower(text) == w)
    {
      Texts.CaseMeans(text, w);
    }
  }

  /** What a section reads as: its text under each key, or what stands for a key that is missing. */
  lemma IndexerMeans(name: string, sec: Section)
    ensures var enabled := if "enabled" in sec then sec["enabled"] else "true";
            var priority := if "priority" in sec then ParseInt(sec["priority"]) else Some(0);
            ParseIndexer(name, sec)
            == if priority.None? || !(IsOn(enabled) || IsOff(enabled)) then Failure("ValueError")
               else
                 Success(Indexer(
                           name,
                           if "url" in sec then sec["url"] else "",
                           if "api_key" in sec then sec["api_key"] else "",
                           IsOn(enabled),
                           priority.value,
                           if "categories" in sec then sec["categories"] else "4000,4010,4020,4030,4040,4050,4060,4070",
                           if "type" in sec then sec["type"] else "newznab"))
  {
    SwitchMeans(if "enabled" in sec then sec["enabled"] else "true");
    hide Texts.Lower, ParseInt, IsOn, IsOff;
  }

  /** An indexer that was just created reads back as it was given. */
  lemma CreatedReadsBack(s: Settings, f: File, name: string, x: IndexerFields)
    requires IndexerSection(name) !in f
    ensures var created := Apply(s, f, Create(name, x));
            && IndexerSection(name) in created
            && ParseIndexer(name, created[IndexerSection(name)])
            == if ParseInt(x.priority).None? || !(IsOn(x.enabled) || IsOff(x.enabled)) then Failure("ValueError")
               else
                 Success(Indexer(name, x.url, x.apiKey, IsOn(x.enabled), ParseInt(x.priority).value,
                                 x.categories, x.kind))
  {
    IndexerMeans(name, NewSection(x));
    assert NewSection(x).Keys == {"url", "api_key", "enabled", "priority", "categories", "type"};
    hide ParseInt, IsOn, IsOff, ParseIndexer;
  }

  lemma ChangeIs(sec: Section, field: string, value: string)
    ensures Changed(sec, [Change(field, value)])
         == if field in {"url", "api_key", "categories", "type", "enabled", "priority"} then sec[field := value]
            else sec
  {
    assert [Change(field, value)][1..] == [];
    assert FIELDS == {"url", "api_key", "categories", "type", "enabled", "priority"};
  }

  /** A field update changes the field that it names, if the manager knows it, and no other. */
  lemma ChangedReadsBack(name: string, sec: Section, field: string, value: string)
    requires ParseIndexer(name, sec).Success?
    ensures var x := ParseIndexer(name, sec).value;
            var r := ParseIndexer(name, Changed(sec, [Change(field, value)]));
            && (field == "url" ==> r == Success(x.(url := value)))
            && (field == "api_key" ==> r == Success(x.(apiKey := value)))
            && (field == "categories" ==> r == Success(x.(categories := value)))
            && (field == "type" ==> r == Success(x.(kind := value)))
            && (field !in {"url", "api_key", "categories", "type", "enabled", "priority"} ==> r == Success(x))
  {
    ChangeIs(sec, field, value);
    IndexerMeans(name, sec);
    IndexerMeans(name, Changed(sec, [Change(field, value)]));
    hide ParseInt, IsOn, IsOff, ParseIndexer, Changed;
  }

  /** The switch and the priority have to be readable. */
  lemma ChangedNumbersReadBack(name: string, sec: Section, value: string)
    requires ParseIndexer(name, sec).Success?
    ensures ParseIndexer(name, Changed(sec, [Change("enabled", value)]))
         == if IsOn(value) || IsOff(value) then Success(ParseIndexer(name, sec).value.(enabled := IsOn(value)))
            else Failure("ValueError")
    ensures ParseIndexer(name, Changed(sec, [Change("priority", value)]))
         == match ParseInt(value)
            case Some(n) => Success(ParseIndexer(name, sec).value.(priority := n))
            case None => Failure("ValueError")
  {
    ChangeIs(sec, "enabled", value);
    ChangeIs(sec, "priority", value);
    IndexerMeans(name, sec);
    IndexerMeans(name, Changed(sec, [Change("enabled", value)]));
    IndexerMeans(name, Changed(sec, [Change("priority", value)]));
    hide ParseInt, IsOn, IsOff, ParseIndexer, Changed;
  }

  /** The statistics stand under these keys; a missing number is zero. */
  lemma StatsMean(sec: Section)
    ensures var successes := if "success_count" in sec then ParseInt(sec["success_count"]) else Some(0);
            var failures := if "failure_count" in sec then ParseInt(sec["failure_count"]) else Some(0);
            var millis := if "last_response_ms" in sec then ParseInt(sec["last_response_ms"]) else Some(0);
            StatsOf(sec)
            == if successes.None? || failures.None? || millis.None? then Failure("ValueError")
               else
                 Success(Stats(successes.value, failures.value,
                               if "last_success_at" in sec then Some(sec["last_success_at"]) else None,
                               if "last_failure_at" in sec then Some(sec["last_failure_at"]) else None,
                               millis.value))
  {
    hide ParseInt;
  }
}
