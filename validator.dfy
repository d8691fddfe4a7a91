/**
 * `validate_formats`: walks the individuals and then the families, in fixed
 * event-tag orders, runs the name, date and place checks and collects the
 * findings in order. The outcome is either the list of findings or the
 * `IndexError` the source raises when it builds a place suggestion from an
 * empty template list.
 */
module FormatValidator {
  import opened Wrappers
  import opened PyStrings
  import opened Findings
  import opened Dates
  import opened Places
  import opened Names
  import opened Records

  /** The error a run can end with: `expected_place_structures[0]` on an empty list. */
  datatype Fault = IndexError

  /** What a run, or a part of it, yields. */
  type Outcome = Result<seq<Finding>, Fault>

  /** Running one part after another: the first error ends the run, otherwise the findings are concatenated. */
  function Then(a: Outcome, b: Outcome): Outcome {
    if a.Failure? then a
    else if b.Failure? then b
    else Success(a.value + b.value)
  }

  /** The record's id, or the placeholder when the reader gives none (or an empty one). */
  function RecordId(kind: RecordKind, xref: Option<string>): string {
    if Truthy(xref) then xref.value else kind.Placeholder()
  }

  /** `f"{RECORD}:{id}"`, the start of every tag path of a record. */
  function BasePath(kind: RecordKind, id: string): string {
    kind.Root() + ":" + id
  }

  // ----- the findings of one name and one event -----

  function NameMessage(p: NameProblem): string {
    match p
    case MissingName => "Name is missing or appears to be empty."
    case NoSurnameSlashes => "Name does not appear to use standard GEDCOM surname slashes (e.g., First /Surname/)."
    case MalformedSurname => "Name contains slashes, but surname part might be empty or malformed (e.g., 'Name / /')."
  }

  function NameSuggestion(p: NameProblem): Option<string> {
    match p
    case MissingName => None
    case NoSurnameSlashes => Some("Ensure surname is enclosed in slashes like /SURNAME/.")
    case MalformedSurname => Some("Check surname formatting between slashes.")
  }

  /** The name finding of an individual, if its first NAME tag has a problem. */
  function NameFindings(indi: Indi, id: string, cfg: Config): seq<Finding> {
    match indi.name
    case None => []
    case Some(tag) =>
      match NameProblemOf(tag.raw, tag.surname, cfg.enforceSurnameSlashes)
      case None => []
      case Some(p) =>
        [CreateFinding("Format Error", "Individual", id, BasePath(Individual, id) + "/NAME",
           tag.raw, NameMessage(p), None, NameSuggestion(p))]
  }

  function DateMessage(tag: string, value: string): string {
    "Date format for " + tag + " ('" + value + "') invalid."
  }

  function DateSuggestion(kind: RecordKind, formats: seq<string>): string {
    "Supported formats: " + Join(formats, ", ") + kind.DateSuggestionTail()
  }

  function PlaceMessage(kind: RecordKind, tag: string, value: string): string {
    "Place format for " + tag + " ('" + value + "')" + kind.PlaceMessageTail()
  }

  function PlaceSuggestion(structures: seq<string>): string
    requires structures != []
  {
    "Expected parts (by comma count): " + DecimalString(SegmentCount(structures[0]))
      + " for '" + structures[0] + "' etc."
  }

  /** The finding of an event's DATE value: only a value that is non-empty once stripped and invalid is reported. */
  function DateFindings(kind: RecordKind, id: string, ev: Event, cfg: Config, parses: Strptime): seq<Finding> {
    match ev.date
    case None => []
    case Some(raw) =>
      var value := Strip(raw);
      if raw != [] && value != [] && !ValidDate(value, cfg.dateFormats, parses) then
        [CreateFinding("Format Error", kind.EventRecordType(), id, BasePath(kind, id) + "/" + ev.tag + "/DATE",
           value, DateMessage(ev.tag, value), Some("preferred_date_formats"),
           Some(DateSuggestion(kind, cfg.dateFormats)))]
      else []
  }

  /**
   * The finding of an event's PLAC value; building its suggestion reads the
   * first template, which raises when there is none.
   */
  function PlaceFindings(kind: RecordKind, id: string, ev: Event, cfg: Config): Outcome {
    match ev.place
    case None => Success([])
    case Some(raw) =>
      var value := Strip(raw);
      if raw != [] && value != [] && !ValidPlace(value, cfg.placeStructures) then
        if cfg.placeStructures == [] then Failure(IndexError)
        else
          Success([CreateFinding("Format Error", kind.EventRecordType(), id, BasePath(kind, id) + "/" + ev.tag + "/PLAC",
            value, PlaceMessage(kind, ev.tag, value), Some("expected_place_format_structures"),
            Some(PlaceSuggestion(cfg.placeStructures)))])
      else Success([])
  }

  /** One event: its DATE finding, then its PLAC finding. */
  function EventFindings(kind: RecordKind, id: string, ev: Event, cfg: Config, parses: Strptime): Outcome {
    Then(Success(DateFindings(kind, id, ev, cfg, parses)), PlaceFindings(kind, id, ev, cfg))
  }

  // ----- the walk, as folds over prefixes (the shape the loops build) -----

  /** The occurrences of one event tag, in order. */
  function EventsFindings(kind: RecordKind, id: string, evs: seq<Event>, cfg: Config, parses: Strptime): Outcome
    decreases |evs|
  {
    if evs == [] then Success([])
    else Then(EventsFindings(kind, id, evs[..|evs| - 1], cfg, parses),
              EventFindings(kind, id, evs[|evs| - 1], cfg, parses))
  }

  /** The event tags of a record, in the given order. */
  function TagsFindings(kind: RecordKind, id: string, events: map<string, seq<Event>>, tags: seq<string>,
                        cfg: Config, parses: Strptime): Outcome
    decreases |tags|
  {
    if tags == [] then Success([])
    else Then(TagsFindings(kind, id, events, tags[..|tags| - 1], cfg, parses),
              EventsFindings(kind, id, Children(events, tags[|tags| - 1]), cfg, parses))
  }

  /** One individual: the name check, then its events. */
  function IndiFindings(indi: Indi, cfg: Config, parses: Strptime): Outcome {
    var id := RecordId(Individual, indi.xref);
    Then(Success(NameFindings(indi, id, cfg)),
         TagsFindings(Individual, id, indi.events, Individual.EventTags(), cfg, parses))
  }

  /** One family: its events. */
  function FamFindings(fam: Fam, cfg: Config, parses: Strptime): Outcome {
    TagsFindings(Family, RecordId(Family, fam.xref), fam.events, Family.EventTags(), cfg, parses)
  }

  function IndisFindings(indis: seq<Indi>, cfg: Config, parses: Strptime): Outcome
    decreases |indis|
  {
    if indis == [] then Success([])
    else Then(IndisFindings(indis[..|indis| - 1], cfg, parses), IndiFindings(indis[|indis| - 1], cfg, parses))
  }

  function FamsFindings(fams: seq<Fam>, cfg: Config, parses: Strptime): Outcome
    decreases |fams|
  {
    if fams == [] then Success([])
    else Then(FamsFindings(fams[..|fams| - 1], cfg, parses), FamFindings(fams[|fams| - 1], cfg, parses))
  }

  /** The whole run: every individual, then every family. */
  function FormatFindings(tree: Tree, cfg: Config, parses: Strptime): Outcome {
    Then(IndisFindings(tree.indis, cfg, parses), FamsFindings(tree.fams, cfg, parses))
  }

  /** The only error is the empty-template `IndexError`. */
  lemma OnlyIndexError(o: Outcome)
    ensures o.Failure? ==> o == Failure(IndexError)
  {
    if o.Failure? {
      match o.error
      case IndexError =>
    }
  }

  // ----- an error part way through ends the run -----

  lemma {:induction false} EventsFailurePersists(kind: RecordKind, id: string, evs: seq<Event>, n: nat,
                                                 cfg: Config, parses: Strptime)
    requires n <= |evs| && EventsFindings(kind, id, evs[..n], cfg, parses).Failure?
    ensures EventsFindings(kind, id, evs, cfg, parses).Failure?
    decreases |evs|
  {
    if n < |evs| {
      assert evs[..|evs| - 1][..n] == evs[..n];
      EventsFailurePersists(kind, id, evs[..|evs| - 1], n, cfg, parses);
    } else {
      assert evs[..n] == evs;
    }
  }

  lemma {:induction false} TagsFailurePersists(kind: RecordKind, id: string, events: map<string, seq<Event>>,
                                               tags: seq<string>, n: nat, cfg: Config, parses: Strptime)
    requires n <= |tags| && TagsFindings(kind, id, events, tags[..n], cfg, parses).Failure?
    ensures TagsFindings(kind, id, events, tags, cfg, parses).Failure?
    decreases |tags|
  {
    if n < |tags| {
      assert tags[..|tags| - 1][..n] == tags[..n];
      TagsFailurePersists(kind, id, events, tags[..|tags| - 1], n, cfg, parses);
    } else {
      assert tags[..n] == tags;
    }
  }

  lemma {:induction false} IndisFailurePersists(indis: seq<Indi>, n: nat, cfg: Config, parses: Strptime)
    requires n <= |indis| && IndisFindings(indis[..n], cfg, parses).Failure?
    ensures IndisFindings(indis, cfg, parses).Failure?
    decreases |indis|
  {
    if n < |indis| {
      assert indis[..|indis| - 1][..n] == indis[..n];
      IndisFailurePersists(indis[..|indis| - 1], n, cfg, parses);
    } else {
      assert indis[..n] == indis;
    }
  }

  lemma {:induction false} FamsFailurePersists(fams: seq<Fam>, n: nat, cfg: Config, parses: Strptime)
    requires n <= |fams| && FamsFindings(fams[..n], cfg, parses).Failure?
    ensures FamsFindings(fams, cfg, parses).Failure?
    decreases |fams|
  {
    if n < |fams| {
      assert fams[..|fams| - 1][..n] == fams[..n];
      FamsFailurePersists(fams[..|fams| - 1], n, cfg, parses);
    } else {
      assert fams[..n] == fams;
    }
  }

  // ----- the methods -----

  /** The DATE check of one event occurrence. */
  method CheckDate(kind: RecordKind, id: string, ev: Event, cfg: Config, parses: Strptime)
    returns (found: seq<Finding>)
    ensures found == DateFindings(kind, id, ev, cfg, parses)
  {
    found := [];
    if ev.date.Some? && ev.date.value != [] {
      var dateVal := Strip(ev.date.value);
      if dateVal != [] {
        var dateOk := ValidateDateValue(dateVal, cfg.dateFormats, parses);
        if !dateOk {
          found := [CreateFinding("Format Error", kind.EventRecordType(), id,
            BasePath(kind, id) + "/" + ev.tag + "/DATE", dateVal, DateMessage(ev.tag, dateVal),
            Some("preferred_date_formats"), Some(DateSuggestion(kind, cfg.dateFormats)))];
        }
      }
    }
  }

  /** The PLAC check of one event occurrence; the suggestion reads the first template. */
  method CheckPlace(kind: RecordKind, id: string, ev: Event, cfg: Config)
    returns (r: Outcome)
    ensures r == PlaceFindings(kind, id, ev, cfg)
  {
    if ev.place.Some? && ev.place.value != [] {
      var placeVal := Strip(ev.place.value);
      if placeVal != [] {
        var placeOk := ValidatePlaceStructure(placeVal, cfg.placeStructures);
        if !placeOk {
          if |cfg.placeStructures| == 0 {
            return Failure(IndexError);
          }
          return Success([CreateFinding("Format Error", kind.EventRecordType(), id,
            BasePath(kind, id) + "/" + ev.tag + "/PLAC", placeVal, PlaceMessage(kind, ev.tag, placeVal),
            Some("expected_place_format_structures"), Some(PlaceSuggestion(cfg.placeStructures)))]);
        }
      }
    }
    return Success([]);
  }

  /** One event occurrence: the DATE check, then the PLAC check. */
  method CheckEvent(kind: RecordKind, id: string, ev: Event, cfg: Config, parses: Strptime)
    returns (r: Outcome)
    ensures r == EventFindings(kind, id, ev, cfg, parses)
  {
    var dateFound := CheckDate(kind, id, ev, cfg, parses);
    var placeFound := CheckPlace(kind, id, ev, cfg);
    r := Then(Success(dateFound), placeFound);
  }

  /** The loop over the occurrences of one event tag. */
  method CheckOccurrences(kind: RecordKind, id: string, evs: seq<Event>, cfg: Config, parses: Strptime)
    returns (r: Outcome)
    ensures r == EventsFindings(kind, id, evs, cfg, parses)
  {
    var found: seq<Finding> := [];
    for k := 0 to |evs|
      invariant EventsFindings(kind, id, evs[..k], cfg, parses) == Success(found)
    {
      var one := CheckEvent(kind, id, evs[k], cfg, parses);
      assert evs[..k + 1][..k] == evs[..k];
      if one.Failure? {
        EventsFailurePersists(kind, id, evs, k + 1, cfg, parses);
        OnlyIndexError(EventsFindings(kind, id, evs, cfg, parses));
        return Failure(IndexError);
      }
      found := found + one.value;
    }
    assert evs[..|evs|] == evs;
    return Success(found);
  }

  /** One more tag of the loop over tags: its occurrences' findings are appended. */
  lemma TagsStep(kind: RecordKind, id: string, events: map<string, seq<Event>>, tags: seq<string>, j: nat,
                 found: seq<Finding>, cfg: Config, parses: Strptime)
    requires j < |tags| && TagsFindings(kind, id, events, tags[..j], cfg, parses) == Success(found)
    ensures TagsFindings(kind, id, events, tags[..j + 1], cfg, parses)
      == Then(Success(found), EventsFindings(kind, id, Children(events, tags[j]), cfg, parses))
  {
    assert tags[..j + 1][..j] == tags[..j];
  }

  /**
   * The event loops of one record: for each checked tag in order, for each
   * occurrence, the DATE check and then the PLAC check.
   */
  method CheckEvents(kind: RecordKind, id: string, events: map<string, seq<Event>>, cfg: Config, parses: Strptime)
    returns (r: Outcome)
    ensures r == TagsFindings(kind, id, events, kind.EventTags(), cfg, parses)
  {
    var tags := kind.EventTags();
    var found: seq<Finding> := [];
    for j := 0 to |tags|
      invariant TagsFindings(kind, id, events, tags[..j], cfg, parses) == Success(found)
    {
      var some := CheckOccurrences(kind, id, Children(events, tags[j]), cfg, parses);
      TagsStep(kind, id, events, tags, j, found, cfg, parses);
      if some.Failure? {
        TagsFailurePersists(kind, id, events, tags, j + 1, cfg, parses);
        OnlyIndexError(TagsFindings(kind, id, events, tags, cfg, parses));
        return Failure(IndexError);
      }
      found := found + some.value;
    }
    assert tags[..|tags|] == tags;
    return Success(found);
  }

  /** One more individual of the outer loop: its findings are appended. */
  lemma IndisStep(indis: seq<Indi>, i: nat, found: seq<Finding>, cfg: Config, parses: Strptime)
    requires i < |indis| && IndisFindings(indis[..i], cfg, parses) == Success(found)
    ensures IndisFindings(indis[..i + 1], cfg, parses) == Then(Success(found), IndiFindings(indis[i], cfg, parses))
  {
    assert indis[..i + 1][..i] == indis[..i];
  }

  /** One more family of the second loop: its findings are appended. */
  lemma FamsStep(fams: seq<Fam>, i: nat, found: seq<Finding>, cfg: Config, parses: Strptime)
    requires i < |fams| && FamsFindings(fams[..i], cfg, parses) == Success(found)
    ensures FamsFindings(fams[..i + 1], cfg, parses) == Then(Success(found), FamFindings(fams[i], cfg, parses))
  {
    assert fams[..i + 1][..i] == fams[..i];
  }

  /** One individual: the name check, then the event loops. */
  method CheckIndividual(indi: Indi, cfg: Config, parses: Strptime) returns (r: Outcome)
    ensures r == IndiFindings(indi, cfg, parses)
  {
    var id := RecordId(Individual, indi.xref);
    var nameFound := NameFindings(indi, id, cfg);
    var evFindings := CheckEvents(Individual, id, indi.events, cfg, parses);
    if evFindings.Failure? {
      OnlyIndexError(evFindings);
      return Failure(IndexError);
    }
    return Success(nameFound + evFindings.value);
  }

  /** The loop over the individuals: the name check, then the event loops, for each in order. */
  method CheckIndividuals(indis: seq<Indi>, cfg: Config, parses: Strptime) returns (r: Outcome)
    ensures r == IndisFindings(indis, cfg, parses)
  {
    var findings: seq<Finding> := [];
    for i := 0 to |indis|
      invariant IndisFindings(indis[..i], cfg, parses) == Success(findings)
    {
      IndisStep(indis, i, findings, cfg, parses);
      var one := CheckIndividual(indis[i], cfg, parses);
      if one.Failure? {
        IndisFailurePersists(indis, i + 1, cfg, parses);
        OnlyIndexError(IndisFindings(indis, cfg, parses));
        return Failure(IndexError);
      }
      findings := findings + one.value;
    }
    assert indis[..|indis|] == indis;
    return Success(findings);
  }

  /** The loop over the families: the event loops, for each in order. */
  method CheckFamilies(fams: seq<Fam>, cfg: Config, parses: Strptime) returns (r: Outcome)
    ensures r == FamsFindings(fams, cfg, parses)
  {
    var findings: seq<Finding> := [];
    for i := 0 to |fams|
      invariant FamsFindings(fams[..i], cfg, parses) == Success(findings)
    {
      var fam := fams[i];
      FamsStep(fams, i, findings, cfg, parses);
      var evFindings := CheckEvents(Family, RecordId(Family, fam.xref), fam.events, cfg, parses);
      if evFindings.Failure? {
        FamsFailurePersists(fams, i + 1, cfg, parses);
        OnlyIndexError(FamsFindings(fams, cfg, parses));
        return Failure(IndexError);
      }
      findings := findings + evFindings.value;
    }
    assert fams[..|fams|] == fams;
    return Success(findings);
  }

  /**
   * `validate_formats`: all individuals, then all families; the first
   * `IndexError` ends the run and no findings are returned.
   */
  method ValidateFormats(tree: Tree, cfg: Config, parses: Strptime) returns (r: Outcome)
    ensures r == FormatFindings(tree, cfg, parses)
  {
    var indiPart := CheckIndividuals(tree.indis, cfg, parses);
    if indiPart.Failure? {
      OnlyIndexError(indiPart);
      return Failure(IndexError);
    }
    var famPart := CheckFamilies(tree.fams, cfg, parses);
    if famPart.Failure? {
      OnlyIndexError(famPart);
      return Failure(IndexError);
    }
    return Success(indiPart.value + famPart.value);
  }
}
