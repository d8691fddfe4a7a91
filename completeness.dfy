/**
 * The other direction of `validate_formats`: every DATE the date check
 * rejects, every PLAC the place check rejects and every flagged NAME shows
 * up among the findings of the run, at its own path and with its own value.
 */
module ValidatorCompleteness {
  import opened Wrappers
  import opened PyStrings
  import opened Findings
  import opened Dates
  import opened Places
  import opened Names
  import opened Records
  import opened FormatValidator
  import opened ValidatorProperties

  /** The event's DATE is present, non-blank once stripped, and rejected by the date check. */
  predicate DateRejected(ev: Event, cfg: Config, parses: Strptime) {
    ev.date.Some? && Strip(ev.date.value) != [] && !ValidDate(Strip(ev.date.value), cfg.dateFormats, parses)
  }

  /** The event's PLAC is present, non-blank once stripped, and rejected by the place check. */
  predicate PlaceRejected(ev: Event, cfg: Config) {
    ev.place.Some? && Strip(ev.place.value) != [] && !ValidPlace(Strip(ev.place.value), cfg.placeStructures)
  }

  /** The name the reader gives is flagged by the name check. */
  predicate NameFlagged(indi: Indi, cfg: Config) {
    indi.name.Some?
    && NameProblemOf(indi.name.value.raw, indi.name.value.surname, cfg.enforceSurnameSlashes).Some?
  }

  /** A DATE finding is produced exactly when the value is rejected, and then there is one. */
  lemma DateFindingPresent(kind: RecordKind, id: string, ev: Event, cfg: Config, parses: Strptime)
    ensures DateFindings(kind, id, ev, cfg, parses) != [] <==> DateRejected(ev, cfg, parses)
    ensures DateRejected(ev, cfg, parses) ==>
      var fs := DateFindings(kind, id, ev, cfg, parses);
      && |fs| == 1
      && fs[0].tagPath == BasePath(kind, id) + "/" + ev.tag + "/DATE"
      && fs[0].problematicValue == Strip(ev.date.value)
  {
    DateFindingsAtMostOne(kind, id, ev, cfg, parses);
    if DateFindings(kind, id, ev, cfg, parses) != [] {
      DateFindingLocated(kind, id, ev, cfg, parses);
    }
  }

  /**
   * A PLAC finding is produced exactly when the value is rejected and there
   * is a template to suggest; a rejected value with no templates is the
   * `IndexError`.
   */
  lemma PlaceFindingPresent(kind: RecordKind, id: string, ev: Event, cfg: Config)
    ensures var o := PlaceFindings(kind, id, ev, cfg);
      (o.Success? && o.value != []) <==> PlaceRejected(ev, cfg) && cfg.placeStructures != []
    ensures PlaceRejected(ev, cfg) && cfg.placeStructures == [] ==>
      PlaceFindings(kind, id, ev, cfg) == Failure(IndexError)
    ensures PlaceRejected(ev, cfg) && cfg.placeStructures != [] ==>
      var o := PlaceFindings(kind, id, ev, cfg);
      && o.Success? && |o.value| == 1
      && o.value[0].tagPath == BasePath(kind, id) + "/" + ev.tag + "/PLAC"
      && o.value[0].problematicValue == Strip(ev.place.value)
  {
    PlaceFindingsAtMostOne(kind, id, ev, cfg);
    var o := PlaceFindings(kind, id, ev, cfg);
    if o.Success? && o.value != [] {
      PlaceFindingLocated(kind, id, ev, cfg);
    }
  }

  /**
   * A NAME finding is produced exactly when the name check flags the name,
   * and it reports the raw value as read; only a missing name comes
   * without a suggestion.
   */
  lemma NameFindingPresent(indi: Indi, id: string, cfg: Config)
    ensures NameFindings(indi, id, cfg) != [] <==> NameFlagged(indi, cfg)
    ensures NameFlagged(indi, cfg) ==>
      var fs := NameFindings(indi, id, cfg);
      var p := NameProblemOf(indi.name.value.raw, indi.name.value.surname, cfg.enforceSurnameSlashes).value;
      && |fs| == 1 && NameFindingOf(fs[0], id)
      && fs[0].problematicValue == indi.name.value.raw
      && fs[0].message == NameMessage(p)
      && (fs[0].suggestion.Some? <==> p != MissingName)
  {
    match indi.name
    case None =>
    case Some(tag) =>
      match NameProblemOf(tag.raw, tag.surname, cfg.enforceSurnameSlashes)
      case None =>
      case Some(p) => NameFindingFields(indi, id, p);
  }

  /** The fields of the name finding, for the problem the name check found. */
  lemma NameFindingFields(indi: Indi, id: string, p: NameProblem)
    requires indi.name.Some?
    ensures var f := CreateFinding("Format Error", "Individual", id, BasePath(Individual, id) + "/NAME",
                                   indi.name.value.raw, NameMessage(p), None, NameSuggestion(p));
      && NameFindingOf(f, id) && f.problematicValue == indi.name.value.raw
      && f.message == NameMessage(p) && (f.suggestion.Some? <==> p != MissingName)
  {
    var raw := indi.name.value.raw;
    var path := BasePath(Individual, id) + "/NAME";
    var msg := NameMessage(p);
    var sugg := NameSuggestion(p);
    FindingFields("Format Error", "Individual", id, path, raw, msg, None, sugg);
    NameSuggestionKept(p);
  }

  /** Every name problem but a missing name comes with a suggestion. */
  lemma NameSuggestionKept(p: NameProblem)
    ensures Truthy(NameSuggestion(p)) <==> p != MissingName
  {
    match p
    case MissingName =>
    case NoSurnameSlashes => assert |NameSuggestion(p).value| > 0;
    case MalformedSurname => assert |NameSuggestion(p).value| > 0;
  }

  /** The fields `CreateFinding` fills in, and the suggestion kept exactly when it is truthy. */
  lemma FindingFields(
    issueType: string, recordType: string, xrefId: string, tagPath: string,
    problematicValue: string, message: string,
    ruleViolated: Option<string>, suggestion: Option<string>)
    ensures var f := CreateFinding(issueType, recordType, xrefId, tagPath, problematicValue, message,
      ruleViolated, suggestion);
      && f.issueType == issueType && f.recordType == recordType && f.xrefId == xrefId
      && f.tagPath == tagPath && f.problematicValue == problematicValue && f.message == message
      && (f.suggestion.Some? <==> Truthy(suggestion))
  {
  }

  /** A successful `Then` succeeded on both sides and holds their findings in order. */
  lemma ThenSplit(a: Outcome, b: Outcome)
    requires Then(a, b).Success?
    ensures a.Success? && b.Success? && Then(a, b).value == a.value + b.value
  {
  }

  /** Every finding of the `k`-th occurrence is a finding of the occurrences. */
  lemma {:induction false} EventsContain(kind: RecordKind, id: string, evs: seq<Event>, k: nat,
                                         cfg: Config, parses: Strptime)
    requires k < |evs| && EventsFindings(kind, id, evs, cfg, parses).Success?
    ensures EventFindings(kind, id, evs[k], cfg, parses).Success?
    ensures forall f :: f in EventFindings(kind, id, evs[k], cfg, parses).value ==>
      f in EventsFindings(kind, id, evs, cfg, parses).value
    decreases |evs|
  {
    var init := evs[..|evs| - 1];
    ThenSplit(EventsFindings(kind, id, init, cfg, parses), EventFindings(kind, id, evs[|evs| - 1], cfg, parses));
    if k < |evs| - 1 {
      assert init[k] == evs[k];
      EventsContain(kind, id, init, k, cfg, parses);
    }
  }

  /** Every finding of the occurrences of `tags[j]` is a finding of the tags. */
  lemma {:induction false} TagsContain(kind: RecordKind, id: string, events: map<string, seq<Event>>,
                                       tags: seq<string>, j: nat, cfg: Config, parses: Strptime)
    requires j < |tags| && TagsFindings(kind, id, events, tags, cfg, parses).Success?
    ensures EventsFindings(kind, id, Children(events, tags[j]), cfg, parses).Success?
    ensures forall f :: f in EventsFindings(kind, id, Children(events, tags[j]), cfg, parses).value ==>
      f in TagsFindings(kind, id, events, tags, cfg, parses).value
    decreases |tags|
  {
    var init := tags[..|tags| - 1];
    ThenSplit(TagsFindings(kind, id, events, init, cfg, parses),
              EventsFindings(kind, id, Children(events, tags[|tags| - 1]), cfg, parses));
    if j < |tags| - 1 {
      assert init[j] == tags[j];
      TagsContain(kind, id, events, init, j, cfg, parses);
    }
  }

  /** Every finding of the `i`-th individual is a finding of the individuals. */
  lemma {:induction false} IndisContain(indis: seq<Indi>, i: nat, cfg: Config, parses: Strptime)
    requires i < |indis| && IndisFindings(indis, cfg, parses).Success?
    ensures IndiFindings(indis[i], cfg, parses).Success?
    ensures forall f :: f in IndiFindings(indis[i], cfg, parses).value ==> f in IndisFindings(indis, cfg, parses).value
    decreases |indis|
  {
    var init := indis[..|indis| - 1];
    ThenSplit(IndisFindings(init, cfg, parses), IndiFindings(indis[|indis| - 1], cfg, parses));
    if i < |indis| - 1 {
      assert init[i] == indis[i];
      IndisContain(init, i, cfg, parses);
    }
  }

  /** Every finding of the `i`-th family is a finding of the families. */
  lemma {:induction false} FamsContain(fams: seq<Fam>, i: nat, cfg: Config, parses: Strptime)
    requires i < |fams| && FamsFindings(fams, cfg, parses).Success?
    ensures FamFindings(fams[i], cfg, parses).Success?
    ensures forall f :: f in FamFindings(fams[i], cfg, parses).value ==> f in FamsFindings(fams, cfg, parses).value
    decreases |fams|
  {
    var init := fams[..|fams| - 1];
    ThenSplit(FamsFindings(init, cfg, parses), FamFindings(fams[|fams| - 1], cfg, parses));
    if i < |fams| - 1 {
      assert init[i] == fams[i];
      FamsContain(init, i, cfg, parses);
    }
  }

  /** Every finding of occurrence `k` of a checked tag `t` is a finding of the record. */
  lemma RecordContains(kind: RecordKind, id: string, events: map<string, seq<Event>>, t: string, k: nat,
                       cfg: Config, parses: Strptime)
    requires t in kind.EventTags() && k < |Children(events, t)|
    requires TagsFindings(kind, id, events, kind.EventTags(), cfg, parses).Success?
    ensures EventFindings(kind, id, Children(events, t)[k], cfg, parses).Success?
    ensures forall f :: f in EventFindings(kind, id, Children(events, t)[k], cfg, parses).value ==>
      f in TagsFindings(kind, id, events, kind.EventTags(), cfg, parses).value
  {
    var tags := kind.EventTags();
    var j :| 0 <= j < |tags| && tags[j] == t;
    TagsContain(kind, id, events, tags, j, cfg, parses);
    EventsContain(kind, id, Children(events, t), k, cfg, parses);
  }

  /** A successful event check holds a finding for a rejected DATE and one for a rejected PLAC. */
  lemma EventReports(kind: RecordKind, id: string, ev: Event, cfg: Config, parses: Strptime)
    requires EventFindings(kind, id, ev, cfg, parses).Success?
    ensures DateRejected(ev, cfg, parses) ==> exists f :: (f in EventFindings(kind, id, ev, cfg, parses).value
      && f.tagPath == BasePath(kind, id) + "/" + ev.tag + "/DATE" && f.problematicValue == Strip(ev.date.value))
    ensures PlaceRejected(ev, cfg) ==> exists f :: (f in EventFindings(kind, id, ev, cfg, parses).value
      && f.tagPath == BasePath(kind, id) + "/" + ev.tag + "/PLAC" && f.problematicValue == Strip(ev.place.value))
  {
    var date := DateFindings(kind, id, ev, cfg, parses);
    var place := PlaceFindings(kind, id, ev, cfg);
    ThenSplit(Success(date), place);
    DateFindingPresent(kind, id, ev, cfg, parses);
    PlaceFindingPresent(kind, id, ev, cfg);
    if DateRejected(ev, cfg, parses) {
      assert date[0] in EventFindings(kind, id, ev, cfg, parses).value;
    }
    if PlaceRejected(ev, cfg) {
      assert place.value[0] in EventFindings(kind, id, ev, cfg, parses).value;
    }
  }

  /**
   * When the run succeeds, the rejected DATE and PLAC of occurrence `k` of
   * a checked tag `t` of the `i`-th individual are among its findings.
   */
  lemma IndividualEventReported(tree: Tree, cfg: Config, parses: Strptime, i: nat, t: string, k: nat)
    requires FormatFindings(tree, cfg, parses).Success?
    requires i < |tree.indis| && t in Individual.EventTags() && k < |Children(tree.indis[i].events, t)|
    ensures var ev := Children(tree.indis[i].events, t)[k];
      var base := BasePath(Individual, RecordId(Individual, tree.indis[i].xref)) + "/" + ev.tag;
      && (DateRejected(ev, cfg, parses) ==>
            exists f :: (f in FormatFindings(tree, cfg, parses).value
              && f.tagPath == base + "/DATE" && f.problematicValue == Strip(ev.date.value)))
      && (PlaceRejected(ev, cfg) ==>
            exists f :: (f in FormatFindings(tree, cfg, parses).value
              && f.tagPath == base + "/PLAC" && f.problematicValue == Strip(ev.place.value)))
  {
    var indi := tree.indis[i];
    var id := RecordId(Individual, indi.xref);
    var ev := Children(indi.events, t)[k];
    ThenSplit(IndisFindings(tree.indis, cfg, parses), FamsFindings(tree.fams, cfg, parses));
    IndisContain(tree.indis, i, cfg, parses);
    ThenSplit(Success(NameFindings(indi, id, cfg)),
              TagsFindings(Individual, id, indi.events, Individual.EventTags(), cfg, parses));
    RecordContains(Individual, id, indi.events, t, k, cfg, parses);
    EventReports(Individual, id, ev, cfg, parses);
  }

  /**
   * When the run succeeds, the rejected DATE and PLAC of occurrence `k` of
   * a checked tag `t` of the `i`-th family are among its findings.
   */
  lemma FamilyEventReported(tree: Tree, cfg: Config, parses: Strptime, i: nat, t: string, k: nat)
    requires FormatFindings(tree, cfg, parses).Success?
    requires i < |tree.fams| && t in Family.EventTags() && k < |Children(tree.fams[i].events, t)|
    ensures var ev := Children(tree.fams[i].events, t)[k];
      var base := BasePath(Family, RecordId(Family, tree.fams[i].xref)) + "/" + ev.tag;
      && (DateRejected(ev, cfg, parses) ==>
            exists f :: (f in FormatFindings(tree, cfg, parses).value
              && f.tagPath == base + "/DATE" && f.problematicValue == Strip(ev.date.value)))
      && (PlaceRejected(ev, cfg) ==>
            exists f :: (f in FormatFindings(tree, cfg, parses).value
              && f.tagPath == base + "/PLAC" && f.problematicValue == Strip(ev.place.value)))
  {
    var fam := tree.fams[i];
    var id := RecordId(Family, fam.xref);
    var ev := Children(fam.events, t)[k];
    ThenSplit(IndisFindings(tree.indis, cfg, parses), FamsFindings(tree.fams, cfg, parses));
    FamsContain(tree.fams, i, cfg, parses);
    RecordContains(Family, id, fam.events, t, k, cfg, parses);
    EventReports(Family, id, ev, cfg, parses);
  }

  /** When the run succeeds, a flagged name of the `i`-th individual is among its findings, as read. */
  lemma IndividualNameReported(tree: Tree, cfg: Config, parses: Strptime, i: nat)
    requires FormatFindings(tree, cfg, parses).Success?
    requires i < |tree.indis| && NameFlagged(tree.indis[i], cfg)
    ensures exists f :: (f in FormatFindings(tree, cfg, parses).value
      && f.tagPath == BasePath(Individual, RecordId(Individual, tree.indis[i].xref)) + "/NAME"
      && f.problematicValue == tree.indis[i].name.value.raw)
  {
    var indi := tree.indis[i];
    var id := RecordId(Individual, indi.xref);
    ThenSplit(IndisFindings(tree.indis, cfg, parses), FamsFindings(tree.fams, cfg, parses));
    IndisContain(tree.indis, i, cfg, parses);
    ThenSplit(Success(NameFindings(indi, id, cfg)),
              TagsFindings(Individual, id, indi.events, Individual.EventTags(), cfg, parses));
    NameFindingPresent(indi, id, cfg);
    assert NameFindings(indi, id, cfg)[0] in FormatFindings(tree, cfg, parses).value;
  }
}
