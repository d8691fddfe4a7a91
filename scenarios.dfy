/**
 * Worked cases of the date and name checks on concrete values, each derived from the
 * general rules.
 */
module DateScenarios {
  import opened Wrappers
  import opened PyStrings
  import opened Dates

  /** A text without line feeds: `.*` runs to its end. */
  lemma LineEndWithoutFeed(s: string, from: nat)
    requires from <= |s| && forall j :: 0 <= j < |s| ==> s[j] != '\n'
    ensures LineEnd(s, from) == |s|
  {
  }

  /**
   * "BET AND 1900" passes the range test (it starts with "BET " and holds
   * " AND "), but its only " AND " starts inside "BET ", so the pattern does
   * not match and the value is invalid whatever the formats.
   */
  lemma RangeWithoutStartIsInvalid(s: string, formats: seq<string>, parses: Strptime)
    requires s == "BET AND 1900"
    ensures RangeGuard(Upper(s)) && !ValidDate(s, formats, parses)
  {
    var u := Upper(s);
    assert u == s;
    assert InfixAt(u, " AND ", 3);
    LineEndWithoutFeed(s, 4);
    forall k | 4 <= k <= 7 ensures !InfixAt(u, " AND ", k) {
      assert u[k..k + 5][0] == u[k] && u[k..k + 5][1] == u[k + 1];
    }
    assert RangeGroups(s) == None;
    RangeRule(s, formats, parses);
  }
}

module NameScenarios {
  import opened Wrappers
  import opened PyStrings
  import opened Names

  /** A value longer than "//" once stripped is not degenerate. */
  lemma LongNotDegenerate(raw: string)
    requires |Strip(raw)| > 2
    ensures !Degenerate(raw)
  {
  }

  /** A name with its surname between slashes has no problem. */
  lemma SlashedNamePasses(raw: string)
    requires raw == "John /Doe/"
    ensures NameProblemOf(raw, Some("Doe"), true) == None
  {
    assert Strip(raw) == raw;
    LongNotDegenerate(raw);
    NameDecisionTable(raw, Some("Doe"), true);
  }

  /** Slashes around nothing but a space, with no surname extracted, are reported as malformed. */
  lemma EmptySurnameIsMalformed(raw: string)
    requires raw == "/ /"
    ensures NameProblemOf(raw, None, true) == Some(MalformedSurname)
  {
    assert Strip(raw) == raw;
    LongNotDegenerate(raw);
    assert Count("/ /", '/') == 2;
    NameDecisionTable(raw, None, true);
  }
}

/**
 * A whole run on a small tree: one individual with a valid birth date and
 * one with a rejected death date give exactly one finding, at the second
 * individual's DEAT/DATE.
 */
module RunScenarios {
  import opened Wrappers
  import opened PyStrings
  import opened Findings
  import opened Dates
  import opened Records
  import opened FormatValidator
  import opened ValidatorProperties
  import opened ValidatorCompleteness
  import opened ValidatorAccounting

  /** Counting the problems of a prefix of the tags one tag further. */
  lemma TagsCountStep(events: map<string, seq<Event>>, tags: seq<string>, n: nat, cfg: Config, parses: Strptime)
    requires n < |tags|
    ensures TagsCount(events, tags[..n + 1], cfg, parses)
      == TagsCount(events, tags[..n], cfg, parses) + OccurrencesCount(Children(events, tags[n]), cfg, parses)
  {
    assert tags[..n + 1][..n] == tags[..n];
  }

  /** The problems of a record whose only events are the occurrences `evs` of the checked tag `kind.EventTags()[j]`. */
  lemma SingleTagCount(kind: RecordKind, j: nat, evs: seq<Event>, cfg: Config, parses: Strptime)
    requires j < |kind.EventTags()|
    ensures TagsCount(map[kind.EventTags()[j] := evs], kind.EventTags(), cfg, parses) == OccurrencesCount(evs, cfg, parses)
  {
    var tags := kind.EventTags();
    var events := map[tags[j] := evs];
    EventTagsDistinctAt(kind, j);
    var n := 0;
    while n < |tags|
      invariant n <= |tags|
      invariant TagsCount(events, tags[..n], cfg, parses) == if n <= j then 0 else OccurrencesCount(evs, cfg, parses)
    {
      TagsCountStep(events, tags, n, cfg, parses);
      n := n + 1;
    }
    assert tags[..|tags|] == tags;
  }

  /** The tag at `j` occurs nowhere else in the checked tags. */
  lemma EventTagsDistinctAt(kind: RecordKind, j: nat)
    requires j < |kind.EventTags()|
    ensures forall n :: 0 <= n < |kind.EventTags()| && n != j ==> kind.EventTags()[n] != kind.EventTags()[j]
  {
    EventTagsDistinct(kind);
  }

  /** A record whose only event has no PLAC has no rejected PLAC. */
  lemma SingleEventNoPlace(kind: RecordKind, t: string, e: Event, cfg: Config)
    requires e.place.None?
    ensures !RecordPlaceRejected(kind, map[t := [e]], cfg)
  {
  }

  /**
   * When a successful run has exactly one problem, a rejected DATE of an
   * individual's event, its findings are that one finding.
   */
  lemma OnlyProblemReported(tree: Tree, cfg: Config, parses: Strptime, i: nat, t: string, k: nat)
    requires FormatFindings(tree, cfg, parses).Success? && ProblemCount(tree, cfg, parses) == 1
    requires i < |tree.indis| && t in Individual.EventTags() && k < |Children(tree.indis[i].events, t)|
    requires DateRejected(Children(tree.indis[i].events, t)[k], cfg, parses)
    ensures var fs := FormatFindings(tree, cfg, parses).value;
      var ev := Children(tree.indis[i].events, t)[k];
      && |fs| == 1
      && fs[0].tagPath == BasePath(Individual, RecordId(Individual, tree.indis[i].xref)) + "/" + ev.tag + "/DATE"
      && fs[0].problematicValue == Strip(ev.date.value)
  {
    var fs := FormatFindings(tree, cfg, parses).value;
    var ev := Children(tree.indis[i].events, t)[k];
    var path := BasePath(Individual, RecordId(Individual, tree.indis[i].xref)) + "/" + ev.tag + "/DATE";
    RunCounted(tree, cfg, parses);
    IndividualEventReported(tree, cfg, parses, i, t, k);
    var f :| f in fs && f.tagPath == path && f.problematicValue == Strip(ev.date.value);
    SingletonMember(fs, f);
  }

  /** The one element of a one-element sequence is each of its members. */
  lemma SingletonMember(fs: seq<Finding>, f: Finding)
    requires |fs| == 1 && f in fs
    ensures fs[0] == f
  {
  }

  /** The problems of an individual with an unflagged name and one event, of the checked tag at `j`. */
  lemma SingleEventIndiCount(indi: Indi, j: nat, e: Event, cfg: Config, parses: Strptime)
    requires !NameFlagged(indi, cfg) && j < |Individual.EventTags()|
    requires indi.events == map[Individual.EventTags()[j] := [e]]
    ensures IndiCount(indi, cfg, parses) == FieldCount(e, cfg, parses)
  {
    SingleTagCount(Individual, j, [e], cfg, parses);
    assert [e][..0] == [];
  }

  /** Two individuals with no family: the problems of each, added up. */
  lemma TwoIndisCount(a: Indi, b: Indi, cfg: Config, parses: Strptime)
    ensures ProblemCount(Tree([a, b], []), cfg, parses) == IndiCount(a, cfg, parses) + IndiCount(b, cfg, parses)
  {
    assert [a, b][..1] == [a] && [a][..0] == [];
    assert IndisCount([a], cfg, parses) == IndiCount(a, cfg, parses);
    assert IndisCount([a, b], cfg, parses) == IndisCount([a], cfg, parses) + IndiCount(b, cfg, parses);
  }

  /** Two individuals with no family and no rejected PLAC: the run does not fail. */
  lemma TwoIndisNoError(a: Indi, b: Indi, cfg: Config, parses: Strptime)
    requires !RecordPlaceRejected(Individual, a.events, cfg) && !RecordPlaceRejected(Individual, b.events, cfg)
    ensures FormatFindings(Tree([a, b], []), cfg, parses).Success?
  {
    var tree := Tree([a, b], []);
    assert tree.indis[0] == a && tree.indis[1] == b;
    NoRejectedPlaceNoError(tree, cfg, parses);
  }

  /** The path of the DATE under DEAT, spelled as one suffix. */
  lemma DeathDatePath(base: string)
    ensures base + "/" + "DEAT" + "/DATE" == base + "/DEAT/DATE"
  {
    assert "/" + "DEAT" + "/DATE" == "/DEAT/DATE";
  }

  /** The example tree has one problem, its death date, and no rejected PLAC. */
  lemma ExampleOutcome(cfg: Config, parses: Strptime, a: Indi, b: Indi, birth: Event, death: Event)
    requires !NameFlagged(a, cfg) && !NameFlagged(b, cfg)
    requires a.events == map["BIRT" := [birth]] && b.events == map["DEAT" := [death]]
    requires birth.place.None? && death.place.None?
    requires FieldCount(birth, cfg, parses) == 0 && FieldCount(death, cfg, parses) == 1
    ensures FormatFindings(Tree([a, b], []), cfg, parses).Success?
    ensures ProblemCount(Tree([a, b], []), cfg, parses) == 1
  {
    SingleEventIndiCount(a, 0, birth, cfg, parses);
    SingleEventIndiCount(b, 1, death, cfg, parses);
    TwoIndisCount(a, b, cfg, parses);
    SingleEventNoPlace(Individual, "BIRT", birth, cfg);
    SingleEventNoPlace(Individual, "DEAT", death, cfg);
    TwoIndisNoError(a, b, cfg, parses);
  }

  /**
   * Two individuals, no family: the first has a birth whose DATE is not
   * rejected, the second a death whose DATE is, and neither has a PLAC or a
   * flagged name. The run succeeds with exactly one finding, at the
   * second's DEAT/DATE, reporting the stripped value.
   */
  lemma OneBadDeathDate(cfg: Config, parses: Strptime, a: Indi, b: Indi, birth: Event, death: Event)
    requires !NameFlagged(a, cfg) && !NameFlagged(b, cfg)
    requires a.events == map["BIRT" := [birth]] && b.events == map["DEAT" := [death]]
    requires birth.place.None? && !DateRejected(birth, cfg, parses)
    requires death.tag == "DEAT" && death.place.None? && DateRejected(death, cfg, parses)
    ensures var o := FormatFindings(Tree([a, b], []), cfg, parses);
      && o.Success? && |o.value| == 1
      && o.value[0].tagPath == BasePath(Individual, RecordId(Individual, b.xref)) + "/DEAT/DATE"
      && o.value[0].problematicValue == Strip(death.date.value)
  {
    var tree := Tree([a, b], []);
    ExampleOutcome(cfg, parses, a, b, birth, death);
    assert Children(b.events, "DEAT")[0] == death;
    OnlyProblemReported(tree, cfg, parses, 1, "DEAT", 0);
    DeathDatePath(BasePath(Individual, RecordId(Individual, b.xref)));
  }
}
